/** rcu.hpp: readers announce a version, a writer waits until nobody announces an old one.
    Any number of readers and writers, one load or store of shared memory per step. */
module Rcu {

  const NO_RCU_READ: nat := 0

  /** Objects are numbered in the order in which they become the shared pointer's target, so a reader that
      holds o loaded the pointer before the replacement of `prev` was published exactly when o <= prev. */
  type Object = nat

  datatype Reader =
    | Outside
    | Loaded(version: nat)            // lock() has loaded GlobalVersion
    | Inside(held: set<Object>)       // lock() has stored it; `held` are the objects loaded since

  datatype Writer =
    | Resting
    | Published(prev: Object)                                           // replaced `prev`, wait() not entered
    | Scanning(prev: Object, tmp: nat, least: nat, next: nat)           // inside the loop of wait()
    | Returned(prev: Object)                                            // wait() has returned

  datatype State = State(
    globalVersion: nat, versions: seq<nat>,      // CurrentVersionPerThread of every registered reader
    readers: seq<Reader>, writers: seq<Writer>,
    shared: Object, freed: set<Object>)

  datatype Action =
    | LockLoad(i: nat) | LockStore(i: nat) | LoadPointer(i: nat) | Unlock(i: nat)
    | Publish(j: nat) | WaitBump(j: nat) | WaitScan(j: nat) | WaitCheck(j: nat) | Free(j: nat)

  predicate Enabled(s: State, a: Action) {
    match a
    case LockLoad(i) => i < |s.readers| && s.readers[i].Outside?
    case LockStore(i) => i < |s.readers| && s.readers[i].Loaded? && i < |s.versions|
    case LoadPointer(i) => i < |s.readers| && s.readers[i].Inside?
    case Unlock(i) => i < |s.readers| && s.readers[i].Inside? && i < |s.versions|
    case Publish(j) => j < |s.writers| && s.writers[j].Resting?
    case WaitBump(j) => j < |s.writers| && s.writers[j].Published?
    case WaitScan(j) => j < |s.writers| && s.writers[j].Scanning? && s.writers[j].next < |s.versions|
    case WaitCheck(j) => j < |s.writers| && s.writers[j].Scanning? && s.writers[j].next >= |s.versions|
    case Free(j) => j < |s.writers| && s.writers[j].Returned?
  }

  /** The minimum wait() keeps: a reader that announces nothing does not count. */
  function Least(least: nat, version: nat): nat {
    if version != NO_RCU_READ && version < least then version else least
  }

  function Step(s: State, a: Action): State {
    if !Enabled(s, a) then s else
    match a
    case LockLoad(i) => s.(readers := s.readers[i := Loaded(s.globalVersion)])
    case LockStore(i) =>
      s.(readers := s.readers[i := Inside({})], versions := s.versions[i := s.readers[i].version])
    case LoadPointer(i) => s.(readers := s.readers[i := Inside(s.readers[i].held + {s.shared})])
    case Unlock(i) => s.(readers := s.readers[i := Outside], versions := s.versions[i := NO_RCU_READ])
    case Publish(j) => s.(writers := s.writers[j := Published(s.shared)], shared := s.shared + 1)
    case WaitBump(j) =>
      s.(writers := s.writers[j := Scanning(s.writers[j].prev, s.globalVersion, s.globalVersion + 1, 0)],
         globalVersion := s.globalVersion + 1)
    case WaitScan(j) =>
      var w := s.writers[j];
      s.(writers := s.writers[j := w.(least := Least(w.least, s.versions[w.next]), next := w.next + 1)])
    case WaitCheck(j) =>
      var w := s.writers[j];
      s.(writers := s.writers[j := if w.least > w.tmp then Returned(w.prev) else w.(least := w.tmp + 1, next := 0)])
    case Free(j) =>
      s.(writers := s.writers[j := Resting], freed := s.freed + {s.writers[j].prev})
  }

  function Run(s: State, actions: seq<Action>): State
    decreases |actions|
  {
    if actions == [] then s else Run(Step(s, actions[0]), actions[1..])
  }

  /** GlobalVersion starts at 1, so that no announced version is NoRCURead. */
  ghost predicate Initial(s: State) {
    && s.globalVersion == 1 && |s.versions| == |s.readers| && s.freed == {}
    && (forall i :: 0 <= i < |s.readers| ==> s.readers[i] == Outside && s.versions[i] == NO_RCU_READ)
    && (forall j :: 0 <= j < |s.writers| ==> s.writers[j] == Resting)
  }

  // ----- The invariant

  ghost predicate ReaderOk(s: State, i: nat)
    requires i < |s.readers| == |s.versions|
  {
    match s.readers[i]
    case Outside => s.versions[i] == NO_RCU_READ
    case Loaded(v) => s.versions[i] == NO_RCU_READ && 1 <= v <= s.globalVersion
    case Inside(held) =>
      && 1 <= s.versions[i] <= s.globalVersion
      && (forall o :: o in held ==> o <= s.shared && o !in s.freed)
  }

  ghost predicate WriterOk(s: State, j: nat)
    requires j < |s.writers|
  {
    && (s.writers[j].Resting? || (s.writers[j].prev < s.shared && s.writers[j].prev !in s.freed))
    && (s.writers[j].Scanning? ==> s.writers[j].tmp < s.globalVersion)
  }

  ghost predicate OldAreDistinct(s: State) {
    forall j, k :: 0 <= j < k < |s.writers| && !s.writers[j].Resting? && !s.writers[k].Resting? ==>
      s.writers[j].prev != s.writers[k].prev
  }

  /** Reader i uses an object loaded before writer j published. */
  ghost predicate UsesOld(s: State, i: nat, j: nat)
    requires i < |s.readers| && j < |s.writers|
  {
    && s.readers[i].Inside? && !s.writers[j].Resting?
    && exists o :: o in s.readers[i].held && o <= s.writers[j].prev
  }

  /** Such a reader keeps writer j in wait(): its version is old, and the scan remembers it once it has passed. */
  ghost predicate Delays(s: State, i: nat, j: nat)
    requires i < |s.readers| == |s.versions| && j < |s.writers|
  {
    match s.writers[j]
    case Resting => true
    case Published(_) => true
    case Scanning(_, tmp, least, next) => s.versions[i] <= tmp && (i < next ==> least <= tmp)
    case Returned(_) => false
  }

  ghost predicate Inv(s: State) {
    && s.globalVersion >= 1 && |s.readers| == |s.versions|
    && s.shared !in s.freed && (forall o :: o in s.freed ==> o < s.shared)
    && (forall i :: 0 <= i < |s.readers| ==> ReaderOk(s, i))
    && (forall j :: 0 <= j < |s.writers| ==> WriterOk(s, j))
    && OldAreDistinct(s)
    && (forall i, j :: 0 <= i < |s.readers| && 0 <= j < |s.writers| && UsesOld(s, i, j) ==> Delays(s, i, j))
  }

  lemma StepKeepsInv(s: State, a: Action)
    requires Inv(s)
    ensures Inv(Step(s, a))
  {
    var t := Step(s, a);
    assert Enabled(s, a) && a.Free? ==> WriterOk(s, a.j);
    forall j, k | 0 <= j < k < |t.writers| && !t.writers[j].Resting? && !t.writers[k].Resting?
      ensures t.writers[j].prev != t.writers[k].prev
    {
      assert WriterOk(s, j) && WriterOk(s, k);
    }
    forall i | 0 <= i < |t.readers| ensures ReaderOk(t, i) {
      assert ReaderOk(s, i);
      if a.Free? && Enabled(s, a) && s.readers[i].Inside? && s.writers[a.j].prev in s.readers[i].held {
        assert UsesOld(s, i, a.j);
      }
    }
    forall j | 0 <= j < |t.writers| ensures WriterOk(t, j) {
      assert WriterOk(s, j);
    }
    forall i, j | 0 <= i < |t.readers| && 0 <= j < |t.writers| && UsesOld(t, i, j) ensures Delays(t, i, j) {
      assert ReaderOk(s, i) && WriterOk(s, j);
      if UsesOld(s, i, j) {
        assert Delays(s, i, j);
      }
    }
  }

  lemma {:induction false} RunKeepsInv(s: State, actions: seq<Action>)
    requires Inv(s)
    ensures Inv(Run(s, actions))
    decreases |actions|
  {
    if actions != [] {
      StepKeepsInv(s, actions[0]);
      RunKeepsInv(Step(s, actions[0]), actions[1..]);
    }
  }

  // ----- Main results

  /** When wait() has returned, whoever loaded the pointer before this writer published has left its section. */
  lemma GracePeriod(s: State, actions: seq<Action>, i: nat, j: nat)
    requires Initial(s) && i < |s.readers| && j < |s.writers|
    ensures var t := Run(s, actions);
            && |t.readers| == |s.readers| && |t.writers| == |s.writers|
            && (t.writers[j].Returned? && t.readers[i].Inside? ==>
                  forall o :: o in t.readers[i].held ==> o > t.writers[j].prev)
  {
    RunKeepsInv(s, actions);
    RunKeepsSizes(s, actions);
    var t := Run(s, actions);
    if t.writers[j].Returned? && t.readers[i].Inside? {
      assert !UsesOld(t, i, j);
    }
  }

  /** So an object is freed only when nobody inside a section can still use it. */
  lemma NoUseAfterFree(s: State, actions: seq<Action>, i: nat)
    requires Initial(s) && i < |s.readers|
    ensures var t := Run(s, actions);
            && i < |t.readers|
            && (t.readers[i].Inside? ==> t.readers[i].held !! t.freed)
            && t.shared !in t.freed
  {
    RunKeepsInv(s, actions);
    RunKeepsSizes(s, actions);
    assert ReaderOk(Run(s, actions), i);
  }

  lemma {:induction false} RunKeepsSizes(s: State, actions: seq<Action>)
    ensures |Run(s, actions).readers| == |s.readers| && |Run(s, actions).writers| == |s.writers|
    decreases |actions|
  {
    if actions != [] {
      RunKeepsSizes(Step(s, actions[0]), actions[1..]);
    }
  }

  // ----- wait() can return

  /** Nobody announces a version up to `tmp`. */
  ghost predicate NoneOld(s: State, tmp: nat) {
    forall i :: 0 <= i < |s.versions| ==> s.versions[i] == NO_RCU_READ || s.versions[i] > tmp
  }

  ghost predicate NeverOld(s: State, actions: seq<Action>, tmp: nat)
    decreases |actions|
  {
    NoneOld(s, tmp) && (actions != [] ==> NeverOld(Step(s, actions[0]), actions[1..], tmp))
  }

  /** A scan of writer j that has met no old version yet. */
  predicate Clear(s: State, j: nat, prev: Object, tmp: nat) {
    j < |s.writers| && s.writers[j].Scanning? && s.writers[j].prev == prev && s.writers[j].tmp == tmp < s.writers[j].least
  }

  /** Every scan begins like that: the first one and each new one. */
  lemma ScanBeginsClear(s: State, j: nat)
    ensures Enabled(s, WaitBump(j)) ==>
              Clear(Step(s, WaitBump(j)), j, s.writers[j].prev, s.globalVersion) && Step(s, WaitBump(j)).writers[j].next == 0
    ensures Enabled(s, WaitCheck(j)) && Step(s, WaitCheck(j)).writers[j].Scanning? ==>
              && Clear(Step(s, WaitCheck(j)), j, s.writers[j].prev, s.writers[j].tmp)
              && Step(s, WaitCheck(j)).writers[j].next == 0
  {
  }

  lemma {:induction false} ScanStaysClear(s: State, actions: seq<Action>, j: nat, prev: Object, tmp: nat)
    requires Clear(s, j, prev, tmp) && WaitCheck(j) !in actions && NeverOld(s, actions, tmp)
    ensures Clear(Run(s, actions), j, prev, tmp)
    decreases |actions|
  {
    if actions != [] {
      assert actions[0] != WaitCheck(j);
      ScanStaysClear(Step(s, actions[0]), actions[1..], j, prev, tmp);
    }
  }

  /** A scan during which nobody announces an old version is the last: wait() returns at its end. */
  lemma WaitReturns(s: State, actions: seq<Action>, j: nat, prev: Object, tmp: nat)
    requires Clear(s, j, prev, tmp) && WaitCheck(j) !in actions && NeverOld(s, actions, tmp)
    ensures var t := Run(s, actions);
            Enabled(t, WaitCheck(j)) ==> Step(t, WaitCheck(j)).writers[j] == Returned(prev)
  {
    ScanStaysClear(s, actions, j, prev, tmp);
  }

  function Scans(j: nat, n: nat): seq<Action> { if n == 0 then [] else [WaitScan(j)] + Scans(j, n - 1) }

  /** It needs no more than one load for each reader still to be looked at. */
  lemma {:induction false} ScanEnds(s: State, j: nat, prev: Object, tmp: nat)
    requires Clear(s, j, prev, tmp) && NoneOld(s, tmp) && s.writers[j].next <= |s.versions|
    ensures var t := Run(s, Scans(j, |s.versions| - s.writers[j].next) + [WaitCheck(j)]);
            j < |t.writers| && t.writers[j] == Returned(prev)
    decreases |s.versions| - s.writers[j].next
  {
    var n := |s.versions| - s.writers[j].next;
    if n == 0 {
      assert [WaitCheck(j)][1..] == [];
      assert [] + [WaitCheck(j)] == [WaitCheck(j)];
    } else {
      var acts := Scans(j, n) + [WaitCheck(j)];
      ScanEnds(Step(s, WaitScan(j)), j, prev, tmp);
      assert acts[0] == WaitScan(j) && acts[1..] == Scans(j, n - 1) + [WaitCheck(j)];
    }
  }

  /** Nobody uses or is about to announce a version up to `tmp`: everyone inside then has left since. */
  ghost predicate OldHaveLeft(s: State, tmp: nat) {
    && NoneOld(s, tmp) && tmp < s.globalVersion
    && forall i :: 0 <= i < |s.readers| && s.readers[i].Loaded? ==> s.readers[i].version > tmp
  }

  /** Readers that come later announce newer versions, so from then on every scan is such a scan. */
  lemma {:induction false} LaterReadersAreNewer(s: State, actions: seq<Action>, tmp: nat)
    requires OldHaveLeft(s, tmp)
    ensures NeverOld(s, actions, tmp)
    decreases |actions|
  {
    if actions != [] {
      StepKeepsOldAway(s, actions[0], tmp);
      LaterReadersAreNewer(Step(s, actions[0]), actions[1..], tmp);
    }
  }

  lemma StepKeepsOldAway(s: State, a: Action, tmp: nat)
    requires OldHaveLeft(s, tmp)
    ensures OldHaveLeft(Step(s, a), tmp)
  {
  }

  /** The versions that wait() waits for are those up to the one it fetched; it is below every later one. */
  lemma FetchedIsOld(s: State, actions: seq<Action>, j: nat)
    requires Initial(s)
    ensures var t := Run(s, actions);
            j < |t.writers| && t.writers[j].Scanning? ==> t.writers[j].tmp < t.globalVersion
  {
    RunKeepsInv(s, actions);
    var t := Run(s, actions);
    if j < |t.writers| { assert WriterOk(t, j); }
  }

  // ----- The shared variables and the two roles, one atomic step per method

  class Domain {
    var globalVersion: nat
    const containerOfVersion: array<nat>
    var pointer: Object
    ghost var readers: seq<Reader>
    ghost var writers: seq<Writer>
    ghost var freed: set<Object>
    var local: seq<nat>                     // what each reader's lock() has loaded and not yet stored
    var tmp: seq<nat>                       // wait()'s locals, per writer
    var leastVersion: seq<nat>
    var next: seq<nat>

    ghost predicate Valid()
      reads this, containerOfVersion
    {
      && |readers| == containerOfVersion.Length == |local|
      && |writers| == |tmp| == |leastVersion| == |next|
      && (forall i :: 0 <= i < |readers| && readers[i].Loaded? ==> readers[i].version == local[i])
      && (forall j :: 0 <= j < |writers| && writers[j].Scanning? ==>
            writers[j] == Scanning(writers[j].prev, tmp[j], leastVersion[j], next[j]))
      && Inv(View())
    }

    ghost function View(): State
      reads this, containerOfVersion
    {
      State(globalVersion, containerOfVersion[..], readers, writers, pointer, freed)
    }

    constructor (readerCount: nat, writerCount: nat)
      ensures Valid() && Initial(View()) && fresh(containerOfVersion)
      ensures |readers| == readerCount && |writers| == writerCount
    {
      globalVersion, pointer := 1, 0;
      containerOfVersion := new nat[readerCount](_ => NO_RCU_READ);
      readers := seq(readerCount, _ => Outside);
      writers := seq(writerCount, _ => Resting);
      freed := {};
      local := seq(readerCount, _ => 0);
      tmp, leastVersion, next := seq(writerCount, _ => 0), seq(writerCount, _ => 0), seq(writerCount, _ => 0);
    }

    method ReaderLoadVersion(i: nat)
      requires Valid() && i < |readers| && readers[i].Outside?
      modifies this
      ensures Valid() && View() == Step(old(View()), LockLoad(i))
    {
      StepKeepsInv(View(), LockLoad(i));
      local := local[i := globalVersion];
      readers := readers[i := Loaded(globalVersion)];
    }

    method ReaderStoreVersion(i: nat)
      requires Valid() && i < |readers| && readers[i].Loaded?
      modifies this, containerOfVersion
      ensures Valid() && View() == Step(old(View()), LockStore(i))
    {
      StepKeepsInv(View(), LockStore(i));
      containerOfVersion[i] := local[i];
      readers := readers[i := Inside({})];
    }

    method ReaderLoadPointer(i: nat) returns (o: Object)
      requires Valid() && i < |readers| && readers[i].Inside?
      modifies this
      ensures Valid() && View() == Step(old(View()), LoadPointer(i))
      ensures o in readers[i].held && o !in freed
    {
      StepKeepsInv(View(), LoadPointer(i));
      o := pointer;
      readers := readers[i := Inside(readers[i].held + {o})];
    }

    method ReaderUnlock(i: nat)
      requires Valid() && i < |readers| && readers[i].Inside?
      modifies this, containerOfVersion
      ensures Valid() && View() == Step(old(View()), Unlock(i))
    {
      StepKeepsInv(View(), Unlock(i));
      containerOfVersion[i] := NO_RCU_READ;
      readers := readers[i := Outside];
    }

    method WriterPublish(j: nat)
      requires Valid() && j < |writers| && writers[j].Resting?
      modifies this
      ensures Valid() && View() == Step(old(View()), Publish(j))
    {
      StepKeepsInv(View(), Publish(j));
      writers := writers[j := Published(pointer)];
      pointer := pointer + 1;
    }

    method WriterFetchAdd(j: nat)
      requires Valid() && j < |writers| && writers[j].Published?
      modifies this
      ensures Valid() && View() == Step(old(View()), WaitBump(j))
    {
      StepKeepsInv(View(), WaitBump(j));
      tmp := tmp[j := globalVersion];
      leastVersion, next := leastVersion[j := globalVersion + 1], next[j := 0];
      writers := writers[j := Scanning(writers[j].prev, globalVersion, globalVersion + 1, 0)];
      globalVersion := globalVersion + 1;
    }

    /** One load of the scan. */
    method WriterScanOne(j: nat)
      requires Valid() && j < |writers| && writers[j].Scanning? && next[j] < containerOfVersion.Length
      modifies this
      ensures Valid() && View() == Step(old(View()), WaitScan(j))
    {
      StepKeepsInv(View(), WaitScan(j));
      var version := containerOfVersion[next[j]];
      if version != NO_RCU_READ && version < leastVersion[j] {
        leastVersion := leastVersion[j := version];
      }
      next := next[j := next[j] + 1];
      writers := writers[j := Scanning(writers[j].prev, tmp[j], leastVersion[j], next[j])];
    }

    /** The end of a scan: leave wait() or scan again. */
    method WriterCheck(j: nat) returns (done: bool)
      requires Valid() && j < |writers| && writers[j].Scanning? && next[j] >= containerOfVersion.Length
      modifies this
      ensures Valid() && View() == Step(old(View()), WaitCheck(j))
      ensures done ==>
                forall i, o :: 0 <= i < |readers| && readers[i].Inside? && o in readers[i].held ==> o > writers[j].prev
    {
      StepKeepsInv(View(), WaitCheck(j));
      done := leastVersion[j] > tmp[j];
      if done {
        writers := writers[j := Returned(writers[j].prev)];
      } else {
        leastVersion, next := leastVersion[j := tmp[j] + 1], next[j := 0];
        writers := writers[j := Scanning(writers[j].prev, tmp[j], tmp[j] + 1, 0)];
      }
      assert View() == Step(old(View()), WaitCheck(j));
      forall i, o | done && 0 <= i < |readers| && readers[i].Inside? && o in readers[i].held
        ensures o > writers[j].prev
      {
        assert !UsesOld(View(), i, j);
      }
    }

    ghost method WriterFree(j: nat)
      requires Valid() && j < |writers| && writers[j].Returned?
      modifies this
      ensures Valid() && View() == Step(old(View()), Free(j))
    {
      StepKeepsInv(View(), Free(j));
      freed := freed + {writers[j].prev};
      writers := writers[j := Resting];
    }
  }
}
