/** seqlock_readme.h: writers serialised by a spin lock bump a 32-bit sequence before and after they
    update the fields; readers copy the fields one by one and retry when the sequence moved. */
module Seqlock {
  import opened Common

  datatype Writer = Away | Locked | Writing | Bumped

  /** `begun` counts every bump of the sequence before the reader's snapshot of it: history, not read by the code. */
  datatype Reader =
    | Out
    | Copying(start: nat, got: seq<int>, begun: nat)
    | Accepted(got: seq<int>, begun: nat)

  /** `sections` lists the fields before any write and after each completed section; `bumps` counts increments. */
  datatype State = State(
    sequence: nat, holder: Option<nat>, fields: seq<int>,
    writers: seq<Writer>, readers: seq<Reader>,
    sections: seq<seq<int>>, bumps: nat)

  datatype Action =
    | SpinLock(j: nat) | FirstBump(j: nat) | WriteField(j: nat, f: nat, v: int) | LastBump(j: nat) | SpinUnlock(j: nat)
    | ReadBegin(i: nat) | ReadField(i: nat) | ReadRetry(i: nat) | Leave(i: nat)

  predicate Enabled(s: State, a: Action) {
    match a
    case SpinLock(j) => j < |s.writers| && s.writers[j].Away? && s.holder.None?
    case FirstBump(j) => j < |s.writers| && s.writers[j].Locked?
    case WriteField(j, f, _) => j < |s.writers| && s.writers[j].Writing? && f < |s.fields|
    case LastBump(j) => j < |s.writers| && s.writers[j].Writing?
    case SpinUnlock(j) => j < |s.writers| && s.writers[j].Bumped?
    case ReadBegin(i) => i < |s.readers| && s.readers[i].Out?
    case ReadField(i) => i < |s.readers| && s.readers[i].Copying? && |s.readers[i].got| < |s.fields|
    case ReadRetry(i) => i < |s.readers| && s.readers[i].Copying? && |s.readers[i].got| >= |s.fields|
    case Leave(i) => i < |s.readers| && s.readers[i].Accepted?
  }

  function Increment(sequence: nat): nat { (sequence + 1) % WRAP }

  function Step(s: State, a: Action): State {
    if !Enabled(s, a) then s else
    match a
    case SpinLock(j) => s.(holder := Some(j), writers := s.writers[j := Locked])
    case FirstBump(j) =>
      s.(sequence := Increment(s.sequence), bumps := s.bumps + 1, writers := s.writers[j := Writing])
    case WriteField(j, f, v) => s.(fields := s.fields[f := v])
    case LastBump(j) =>
      s.(sequence := Increment(s.sequence), bumps := s.bumps + 1, writers := s.writers[j := Bumped],
         sections := s.sections + [s.fields])
    case SpinUnlock(j) => s.(holder := None, writers := s.writers[j := Away])
    case ReadBegin(i) =>                       // an odd sequence sends the reader back to its load
      if s.sequence % 2 == 1 then s
      else s.(readers := s.readers[i := Copying(s.sequence, [], s.bumps)])
    case ReadField(i) =>
      var Copying(start, got, begun) := s.readers[i];
      s.(readers := s.readers[i := Copying(start, got + [s.fields[|got|]], begun)])
    case ReadRetry(i) =>
      var r := s.readers[i];
      s.(readers := s.readers[i := if s.sequence != r.start then Out else Accepted(r.got, r.begun)])
    case Leave(i) => s.(readers := s.readers[i := Out])
  }

  function Run(s: State, actions: seq<Action>): State
    decreases |actions|
  {
    if actions == [] then s else Run(Step(s, actions[0]), actions[1..])
  }

  ghost predicate Initial(s: State) {
    && s.sequence == 0 == s.bumps && s.holder == None && s.sections == [s.fields]
    && (forall j :: 0 <= j < |s.writers| ==> s.writers[j] == Away)
    && (forall i :: 0 <= i < |s.readers| ==> s.readers[i] == Out)
  }

  // ----- The invariant

  /** The lock's holder is the one writer past spin_lock, and its place in the section fixes the parity. */
  ghost predicate LockOk(s: State) {
    && (s.holder.Some? ==> s.holder.value < |s.writers|)
    && (forall j :: 0 <= j < |s.writers| ==> (s.writers[j].Away? <==> s.holder != Some(j)))
    && (s.bumps % 2 == 1 <==> s.holder.Some? && s.writers[s.holder.value].Writing?)
  }

  ghost predicate FieldsOk(s: State) {
    && s.sequence == s.bumps % WRAP
    && |s.sections| == s.bumps / 2 + 1
    && (s.bumps % 2 == 0 ==> s.fields == s.sections[s.bumps / 2])
    && (forall k :: 0 <= k < |s.sections| ==> |s.sections[k]| == |s.fields|)
  }

  /** As long as no bump followed, what the reader has copied comes from the last completed section. */
  ghost predicate ReaderOk(s: State, i: nat)
    requires i < |s.readers| && FieldsOk(s)
  {
    match s.readers[i]
    case Out => true
    case Copying(start, got, begun) =>
      && begun <= s.bumps && begun % 2 == 0 && start == begun % WRAP && |got| <= |s.fields|
      && (begun == s.bumps ==> got <= s.sections[begun / 2])
    case Accepted(got, begun) => true
  }

  ghost predicate Inv(s: State) {
    LockOk(s) && FieldsOk(s) && forall i :: 0 <= i < |s.readers| ==> ReaderOk(s, i)
  }

  lemma WrapKeepsParity(n: nat)
    ensures n % WRAP % 2 == n % 2
    ensures Increment(n % WRAP) == (n + 1) % WRAP
  {
  }

  lemma StepKeepsInv(s: State, a: Action)
    requires Inv(s)
    ensures Inv(Step(s, a))
  {
    var t := Step(s, a);
    StepKeepsFields(s, a);
    forall i | 0 <= i < |t.readers| ensures ReaderOk(t, i) { StepKeepsReader(s, a, i); }
  }

  lemma StepKeepsReader(s: State, a: Action, i: nat)
    requires Inv(s) && i < |s.readers|
    ensures |Step(s, a).readers| == |s.readers| && FieldsOk(Step(s, a)) && ReaderOk(Step(s, a), i)
  {
    StepKeepsFields(s, a);
    assert ReaderOk(s, i);
    assert Step(s, a).bumps == s.bumps ==> Step(s, a).sections == s.sections;
  }

  lemma StepKeepsFields(s: State, a: Action)
    requires Inv(s)
    ensures LockOk(Step(s, a)) && FieldsOk(Step(s, a))
  {
    WrapKeepsParity(s.bumps);
  }

  lemma {:induction false} RunKeepsInv(s: State, actions: seq<Action>)
    requires Inv(s)
    ensures Inv(Run(s, actions))
    decreases |actions|
  {
    if actions != [] {
      StepKeepsInv(s, actions[0]);
      RunKeepsInv(Step(s, actions[0]), actions[1..]);
    }
  }

  lemma InitialInv(s: State)
    requires Initial(s)
    ensures Inv(s)
  {
  }

  // ----- Main results

  /** Accepting after fewer than 2^32 bumps: the copy is what one and the same completed section left. */
  lemma AcceptedIsOneSection(s: State, actions: seq<Action>, i: nat)
    requires Initial(s)
    requires var t := Run(s, actions);
             && i < |t.readers| && Enabled(t, ReadRetry(i))
             && t.bumps - t.readers[i].begun < WRAP
    ensures var t := Run(s, actions); var u := Step(t, ReadRetry(i));
            u.readers[i].Accepted? ==>
              && t.readers[i].begun / 2 < |t.sections|
              && u.readers[i].got == t.sections[t.readers[i].begun / 2]
  {
    InitialInv(s);
    RunKeepsInv(s, actions);
    var t := Run(s, actions);
    assert ReaderOk(t, i);
    if t.sequence == t.readers[i].start {
      SameResidue(t.readers[i].begun, t.bumps);
    }
  }

  /** A reader starts its copy exactly when no writer is between its two bumps. */
  lemma BeginsIffQuiet(s: State, actions: seq<Action>, i: nat)
    requires Initial(s) && Enabled(Run(s, actions), ReadBegin(i))
    ensures var t := Run(s, actions);
            Step(t, ReadBegin(i)).readers[i].Copying? <==> forall j :: 0 <= j < |t.writers| ==> !t.writers[j].Writing?
  {
    InitialInv(s);
    RunKeepsInv(s, actions);
    var t := Run(s, actions);
    WrapKeepsParity(t.bumps);
    if t.bumps % 2 == 1 { assert t.writers[t.holder.value].Writing?; }
  }

  /** A copy is accepted exactly when a multiple of 2^32 bumps fell into it; when none did, it is the fields. */
  lemma AcceptedIff(s: State, actions: seq<Action>, i: nat)
    requires Initial(s) && Enabled(Run(s, actions), ReadRetry(i))
    ensures var t := Run(s, actions); var r := t.readers[i];
            && r.begun <= t.bumps
            && (Step(t, ReadRetry(i)).readers[i].Accepted? <==> t.bumps % WRAP == r.begun % WRAP)
            && (t.bumps == r.begun ==> Step(t, ReadRetry(i)).readers[i] == Accepted(t.fields, r.begun))
  {
    InitialInv(s);
    RunKeepsInv(s, actions);
    assert ReaderOk(Run(s, actions), i);
  }

  /** Two writers are never inside their sections at once. */
  lemma WritersExclude(s: State, actions: seq<Action>, j: nat, k: nat)
    requires Initial(s)
    ensures var t := Run(s, actions);
            j < k < |t.writers| ==> t.writers[j].Away? || t.writers[k].Away?
  {
    InitialInv(s);
    RunKeepsInv(s, actions);
  }

  // ----- The bound is exact: 2^31 sections inside one read bring the sequence back, and the copy can be torn

  lemma {:induction false} RunAppends(s: State, a: seq<Action>, b: seq<Action>)
    ensures Run(s, a + b) == Run(Run(s, a), b)
    decreases |a|
  {
    if a == [] {
      assert a + b == b;
    } else {
      assert (a + b)[1..] == a[1..] + b;
      RunAppends(Step(s, a[0]), a[1..], b);
    }
  }

  function Section(v: int): seq<Action> {
    [SpinLock(0), FirstBump(0), WriteField(0, 0, v), WriteField(0, 1, v), LastBump(0), SpinUnlock(0)]
  }

  function Sections(n: nat): seq<Action> {
    if n == 0 then [] else Sections(n - 1) + Section(n)
  }

  /** The log after sections 1, ..., n, where section v writes v to both fields. */
  function Log(n: nat): (r: seq<seq<int>>)
    ensures |r| == n + 1
    ensures forall k :: 0 <= k <= n ==> r[k] == [k, k]
  {
    if n == 0 then [[0, 0]] else Log(n - 1) + [[n, n]]
  }

  /** One writer, one reader that has copied the first of two fields, and n completed sections since. */
  ghost function HalfRead(n: nat): State {
    State(2 * n % WRAP, None, [n, n], [Away], [Copying(0, [0], 0)], Log(n), 2 * n)
  }

  lemma RunOne(s: State, a: Action, rest: seq<Action>)
    ensures Run(s, [a] + rest) == Run(Step(s, a), rest)
  {
    assert ([a] + rest)[1..] == rest;
  }

  lemma OneSection(n: nat)
    ensures Run(HalfRead(n), Section(n + 1)) == HalfRead(n + 1)
  {
    var s, v := HalfRead(n), n + 1;
    WrapKeepsParity(2 * n);
    WrapKeepsParity(2 * n + 1);
    var s1 := s.(holder := Some(0), writers := [Locked]);
    var s2 := s1.(writers := [Writing], sequence := (2 * n + 1) % WRAP, bumps := 2 * n + 1);
    var s3 := s2.(fields := [v, n]);
    var s4 := s2.(fields := [v, v]);
    var s5 := s4.(writers := [Bumped], sequence := 2 * v % WRAP, bumps := 2 * v, sections := Log(v));
    assert s1 == Step(s, SpinLock(0)) && s2 == Step(s1, FirstBump(0));
    assert s3 == Step(s2, WriteField(0, 0, v)) && s4 == Step(s3, WriteField(0, 1, v));
    assert s5 == Step(s4, LastBump(0)) && HalfRead(v) == Step(s5, SpinUnlock(0));
    RunTwo(s, SpinLock(0), FirstBump(0));
    RunTwo(s2, WriteField(0, 0, v), WriteField(0, 1, v));
    RunTwo(s4, LastBump(0), SpinUnlock(0));
    var first, last := [SpinLock(0), FirstBump(0)], [LastBump(0), SpinUnlock(0)];
    var middle := [WriteField(0, 0, v), WriteField(0, 1, v)];
    assert Section(v) == first + (middle + last);
    RunAppends(s, first, middle + last);
    RunAppends(s2, middle, last);
  }

  lemma RunLast(s: State, a: Action)
    ensures Run(s, [a]) == Step(s, a)
  {
    assert [a][1..] == [];
  }

  lemma RunTwo(s: State, a: Action, b: Action)
    ensures Run(s, [a, b]) == Step(Step(s, a), b)
  {
    RunOne(s, a, [b] + []);
    RunOne(Step(s, a), b, []);
    assert [a, b] == [a] + ([b] + []);
  }

  lemma {:induction false} ManySections(n: nat)
    ensures Run(HalfRead(0), Sections(n)) == HalfRead(n)
  {
    if n > 0 {
      ManySections(n - 1);
      RunAppends(HalfRead(0), Sections(n - 1), Section(n));
      OneSection(n - 1);
    }
  }

  ghost function Fresh(): State {
    State(0, None, [0, 0], [Away], [Out], [[0, 0]], 0)
  }

  lemma ReachHalfRead()
    ensures Run(Fresh(), [ReadBegin(0), ReadField(0)]) == HalfRead(0)
  {
    var s1 := Step(Fresh(), ReadBegin(0));
    var none: seq<int> := [];
    assert none + [0] == [0];
    RunTwo(Fresh(), ReadBegin(0), ReadField(0));
    assert Step(s1, ReadField(0)) == s1.(readers := [Copying(0, [0], 0)]);
  }

  /** The reader copies its second field n sections after its first. */
  lemma TearCopy(n: nat)
    requires n > 0
    ensures var t := Step(HalfRead(n), ReadField(0));
            && t == HalfRead(n).(readers := [Copying(0, [0, n], 0)]) && [0, n] !in t.sections
  {
    assert [0] + [n] == [0, n];
    assert forall k :: 0 <= k <= n ==> Log(n)[k][0] == Log(n)[k][1];
  }

  /** Reader i is about to look at the sequence again, and will accept its copy. */
  ghost predicate Accepts(t: State, i: nat) {
    Enabled(t, ReadRetry(i)) && Step(t, ReadRetry(i)).readers[i].Accepted?
  }

  /** In every run, every copy accepted with at most `bound` bumps since it began is what a section left. */
  ghost predicate Sound(bound: nat) {
    forall s, actions, i: nat {:trigger Accepts(Run(s, actions), i)} ::
      Initial(s) && Accepts(Run(s, actions), i) && Run(s, actions).bumps - Run(s, actions).readers[i].begun <= bound
      ==> Run(s, actions).readers[i].got in Run(s, actions).sections
  }

  /** The copy right before it is accepted, exactly 2^32 bumps after it began. */
  lemma TornCopy() returns (s: State, actions: seq<Action>)
    ensures Initial(s)
    ensures var t := Run(s, actions);
            && |t.readers| == 1 && Accepts(t, 0)
            && t.bumps - t.readers[0].begun == WRAP && t.readers[0].got !in t.sections
  {
    s := Fresh();
    var n, first := WRAP / 2, [ReadBegin(0), ReadField(0)];
    actions := first + (Sections(n) + [ReadField(0)]);
    ReachHalfRead();
    RunAppends(s, first, Sections(n) + [ReadField(0)]);
    RunAppends(HalfRead(0), Sections(n), [ReadField(0)]);
    ManySections(n);
    RunLast(HalfRead(n), ReadField(0));
    TearCopy(n);
  }

  /** Accepted copies are sections' copies when fewer than 2^32 bumps can fall inside a read, and only then. */
  lemma SoundIffNoWrap(bound: nat)
    ensures Sound(bound) <==> bound < WRAP
  {
    if bound < WRAP {
      forall s, actions, i: nat {:trigger Accepts(Run(s, actions), i)} |
          Initial(s) && Accepts(Run(s, actions), i) && Run(s, actions).bumps - Run(s, actions).readers[i].begun <= bound
        ensures Run(s, actions).readers[i].got in Run(s, actions).sections
      {
        AcceptedIsOneSection(s, actions, i);
      }
    } else {
      var s, actions := TornCopy();
      assert Accepts(Run(s, actions), 0);
    }
  }

  /** With exactly 2^32 bumps between the reader's two looks at the sequence a torn copy is accepted. */
  lemma WrapTearsRead() returns (s: State, actions: seq<Action>)
    ensures Initial(s)
    ensures var t := Run(s, actions);
            && |t.readers| == 1 && t.readers[0].Accepted? && t.bumps - t.readers[0].begun == WRAP
            && t.readers[0].got !in t.sections
  {
    var start;
    s, start := TornCopy();
    actions := start + [ReadRetry(0)];
    RunAppends(s, start, [ReadRetry(0)]);
    RunLast(Run(s, start), ReadRetry(0));
  }

  // ----- seqlock_t and the wall clock it guards, one atomic step per method

  class Clock {
    var locked: bool
    var sequence: nat
    const wallTime: array<int>                 // wall_time_sec, wall_time_nsec and what vgetns reads
    ghost var holder: Option<nat>
    ghost var writers: seq<Writer>
    ghost var readers: seq<Reader>
    ghost var sections: seq<seq<int>>
    ghost var bumps: nat

    ghost function View(): State
      reads this, wallTime
    {
      State(sequence, holder, wallTime[..], writers, readers, sections, bumps)
    }

    ghost predicate Valid()
      reads this, wallTime
    {
      locked == holder.Some? && Inv(View())
    }

    constructor (fieldCount: nat, writerCount: nat, readerCount: nat)
      ensures Valid() && Initial(View()) && fresh(wallTime)
      ensures |writers| == writerCount && |readers| == readerCount && wallTime.Length == fieldCount
    {
      locked, sequence, holder, bumps := false, 0, None, 0;
      wallTime := new int[fieldCount];
      writers := seq(writerCount, _ => Away);
      readers := seq(readerCount, _ => Out);
      new;
      sections := [wallTime[..]];
    }

    /** spin_lock: one attempt. */
    method TrySpinLock(j: nat) returns (got: bool)
      requires Valid() && j < |writers| && writers[j].Away?
      modifies this
      ensures Valid() && got == !old(locked)
      ensures View() == if got then Step(old(View()), SpinLock(j)) else old(View())
    {
      StepKeepsInv(View(), SpinLock(j));
      got := !locked;
      if got {
        locked, holder, writers := true, Some(j), writers[j := Locked];
      }
    }

    method WriteSeqlockBump(j: nat)
      requires Valid() && j < |writers| && writers[j].Locked?
      modifies this
      ensures Valid() && View() == Step(old(View()), FirstBump(j))
    {
      StepKeepsInv(View(), FirstBump(j));
      sequence := (sequence + 1) % WRAP;
      bumps, writers := bumps + 1, writers[j := Writing];
    }

    method UpdateField(j: nat, f: nat, v: int)
      requires Valid() && j < |writers| && writers[j].Writing? && f < wallTime.Length
      modifies wallTime
      ensures Valid() && View() == Step(old(View()), WriteField(j, f, v))
    {
      StepKeepsInv(View(), WriteField(j, f, v));
      wallTime[f] := v;
    }

    method WriteSequnlockBump(j: nat)
      requires Valid() && j < |writers| && writers[j].Writing?
      modifies this
      ensures Valid() && View() == Step(old(View()), LastBump(j))
    {
      StepKeepsInv(View(), LastBump(j));
      sequence := (sequence + 1) % WRAP;
      bumps, writers, sections := bumps + 1, writers[j := Bumped], sections + [wallTime[..]];
    }

    method SpinRelease(j: nat)
      requires Valid() && j < |writers| && writers[j].Bumped?
      modifies this
      ensures Valid() && View() == Step(old(View()), SpinUnlock(j))
    {
      StepKeepsInv(View(), SpinUnlock(j));
      locked, holder, writers := false, None, writers[j := Away];
    }

    /** One turn of the loop in read_seqbegin. */
    method ReadSeqbegin(i: nat) returns (ok: bool, start: nat)
      requires Valid() && i < |readers| && readers[i].Out?
      modifies this
      ensures Valid() && View() == Step(old(View()), ReadBegin(i))
      ensures ok == readers[i].Copying? && (ok ==> readers[i].start == start)
    {
      StepKeepsInv(View(), ReadBegin(i));
      start := sequence;
      ok := start % 2 == 0;
      if ok { readers := readers[i := Copying(start, [], bumps)]; }
    }

    /** One load of do_realtime's copy: field f is the next one. */
    method CopyField(i: nat, f: nat) returns (v: int)
      requires Valid() && i < |readers| && readers[i].Copying? && f == |readers[i].got| < wallTime.Length
      modifies this
      ensures Valid() && View() == Step(old(View()), ReadField(i))
      ensures readers[i].Copying? && readers[i].got == old(readers[i].got) + [v]
    {
      StepKeepsInv(View(), ReadField(i));
      v := wallTime[f];
      readers := readers[i := Copying(readers[i].start, readers[i].got + [v], readers[i].begun)];
    }

    /** A copy that read_seqretry accepts, fewer than 2^32 bumps after it began, is one completed section's. */
    method ReadSeqretry(i: nat, start: nat) returns (retry: bool)
      requires Valid() && i < |readers| && readers[i].Copying? && |readers[i].got| == wallTime.Length
      requires start == readers[i].start
      modifies this
      ensures Valid() && View() == Step(old(View()), ReadRetry(i))
      ensures !retry && bumps - old(readers[i].begun) < WRAP ==> readers[i].Accepted? && readers[i].got in sections
    {
      StepKeepsInv(View(), ReadRetry(i));
      retry := sequence != start;
      assert ReaderOk(View(), i);
      if !retry && bumps - readers[i].begun < WRAP {
        SameResidue(readers[i].begun, bumps);
        assert readers[i].got == sections[bumps / 2];
      }
      readers := readers[i := if retry then Out else Accepted(readers[i].got, readers[i].begun)];
    }
  }
}
