/** Which entries of the binary log come back with the class tag of their event, over all schedules. */
module BinlogTags {
  import opened Bytes
  import opened Common
  import opened BinlogFile
  import opened BinlogDump

  // ----- Descriptors in a stream, and the places of a thread's records

  /** A descriptor of this id is among the first n records. */
  ghost predicate Described(rs: seq<Record>, n: nat, id: nat)
    requires n <= |rs|
  {
    exists k :: 0 <= k < n && rs[k].Descriptor? && rs[k].index == id
  }

  lemma {:induction false} DescribedIffLast(rs: seq<Record>, n: nat, id: nat)
    requires n <= |rs|
    ensures Described(rs, n, id) <==> LastDescriptor(rs, n, id).Some?
    ensures var last := LastDescriptor(rs, n, id);
            last.Some? ==> && last.value < n && rs[last.value].Descriptor? && rs[last.value].index == id
                           && forall k :: last.value < k < n && rs[k].Descriptor? ==> rs[k].index != id
  {
    if n > 0 {
      DescribedIffLast(rs, n - 1, id);
      if Described(rs, n - 1, id) {
        var k :| 0 <= k < n - 1 && rs[k].Descriptor? && rs[k].index == id;
      }
    }
  }

  /** Where the b-th record of a thread stands among all dumped ones. */
  function Place(d: seq<(nat, Record)>, t: nat, b: nat): (p: nat)
    requires b < |DumpedBy(d, t)|
    ensures p < |d| && d[p] == (t, DumpedBy(d, t)[b])
  {
    var n := |d| - 1;
    if b < |DumpedBy(d[..n], t)| then Place(d[..n], t, b) else n
  }

  lemma {:induction false} PlacesGrow(d: seq<(nat, Record)>, t: nat, b: nat, c: nat)
    requires b < c < |DumpedBy(d, t)|
    ensures Place(d, t, b) < Place(d, t, c)
  {
    var n := |d| - 1;
    if c < |DumpedBy(d[..n], t)| { PlacesGrow(d[..n], t, b, c); }
  }

  lemma {:induction false} RecordsAt(d: seq<(nat, Record)>, p: nat)
    requires p < |d|
    ensures |Records(d)| == |d| && Records(d)[p] == d[p].1
  {
    var n := |d| - 1;
    RecordsLength(d);
    RecordsLength(d[..n]);
    if p < n { RecordsAt(d[..n], p); }
  }

  lemma {:induction false} RecordsLength(d: seq<(nat, Record)>)
    ensures |Records(d)| == |d|
  {
    if d != [] { RecordsLength(d[..|d| - 1]); }
  }

  /** The index in the file's record stream of the b-th record that thread t dumped. */
  ghost function InStream(s: State, t: nat, b: nat): (i: nat)
    requires b < |DumpedBy(s.dumped, t)|
    ensures i < |Stream(s)| && Stream(s)[i] == DumpedBy(s.dumped, t)[b]
  {
    RecordsAt(s.dumped, Place(s.dumped, t, b));
    |s.start| + Place(s.dumped, t, b)
  }

  /** If thread t's b-th record is in the file, the reader finds a descriptor for it. */
  ghost predicate Tagged(s: State, t: nat, b: nat) {
    b < |DumpedBy(s.dumped, t)| && DumpedBy(s.dumped, t)[b].Entry? ==> TagFor(Stream(s), InStream(s, t, b)).Some?
  }

  /** ... and one that was logged since the dumper started, not one that an earlier run left in the file. */
  ghost predicate TaggedAnew(s: State, t: nat, b: nat) {
    b < |DumpedBy(s.dumped, t)| && DumpedBy(s.dumped, t)[b].Entry? ==>
      var i := InStream(s, t, b);
      var last := LastDescriptor(Stream(s), i, Stream(s)[i].id);
      last.Some? && last.value >= |s.start|
  }

  /** The thread's own earlier descriptor is in the stream before the entry. */
  lemma OwnDescriptorTags(s: State, t: nat, b: nat, c: nat)
    requires c < b < |DumpedBy(s.dumped, t)|
    requires var rs := DumpedBy(s.dumped, t); rs[b].Entry? && rs[c].Descriptor? && rs[c].index == rs[b].id
    ensures Tagged(s, t, b) && TaggedAnew(s, t, b)
  {
    PlacesGrow(s.dumped, t, c, b);
    var i, k, rs := InStream(s, t, b), InStream(s, t, c), Stream(s);
    assert k < i && rs[k].Descriptor? && rs[k].index == rs[i].id;
    DescribedIffLast(rs, i, rs[i].id);
  }

  lemma StartDescriptorTags(s: State, t: nat, b: nat)
    requires b < |DumpedBy(s.dumped, t)| && DumpedBy(s.dumped, t)[b].Entry?
    requires Described(s.start, |s.start|, DumpedBy(s.dumped, t)[b].id)
    ensures Tagged(s, t, b)
  {
    var i, rs := InStream(s, t, b), Stream(s);
    var k :| 0 <= k < |s.start| && s.start[k].Descriptor? && s.start[k].index == rs[i].id;
    assert rs[k] == s.start[k];
    DescribedIffLast(rs, i, rs[i].id);
  }

  // ----- A schedule that serves one thread first

  predicate IsPush(a: Action) { a.PushEntry? || a.PushFirstCell? || a.PushSecondCell? }

  /** The pushes of thread t, or those of all others. */
  function PushesOf(actions: seq<Action>, t: nat, own: bool): seq<Action> {
    if actions == [] then []
    else
      (if IsPush(actions[0]) && (actions[0].t == t) == own then [actions[0]] else [])
      + PushesOf(actions[1..], t, own)
  }

  /** As far as pushing goes, thread i is at the same point. */
  predicate SameLog(s: State, u: State, i: nat) {
    Fits(s) && Fits(u) && i < |s.pushed| == |u.pushed| && s.half[i] == u.half[i] && s.pushed[i] == u.pushed[i]
  }

  ghost predicate SameLogs(s: State, u: State, t: nat, own: bool) {
    |s.pushed| == |u.pushed| && forall i :: 0 <= i < |s.pushed| && (i == t) == own ==> SameLog(s, u, i)
  }

  /** What no push touches. */
  predicate SameDumped(s: State, u: State) {
    s.middle == u.middle && s.file == u.file && s.start == u.start && s.dumped == u.dumped
  }

  /** What a push does depends on its own thread's log alone, and so does whether it can be made. */
  lemma PushDependsOnOwnLog(s: State, u: State, a: Action)
    requires Fits(s) && Fits(u) && |s.pushed| == |u.pushed| && IsPush(a)
    requires a.t < |s.pushed| ==> SameLog(s, u, a.t)
    ensures Enabled(s, a) <==> Enabled(u, a)
    ensures a.t < |s.pushed| ==> SameLog(Step(s, a), Step(u, a), a.t)
  {
  }

  lemma PushKeepsOthers(s: State, a: Action, i: nat)
    requires Fits(s) && IsPush(a) && i < |s.pushed| && i != a.t
    ensures SameLog(s, Step(s, a), i)
  {
  }

  lemma PushKeepsDumped(s: State, a: Action)
    requires Fits(s) && IsPush(a)
    ensures Fits(Step(s, a)) && |Step(s, a).pushed| == |s.pushed| && SameDumped(s, Step(s, a))
  {
  }

  lemma PushSimulates(s: State, u: State, a: Action, t: nat, own: bool)
    requires Fits(s) && Fits(u) && SameLogs(s, u, t, own) && IsPush(a) && (a.t == t) == own
    ensures var s', u' := Step(s, a), Step(u, a);
            && Fits(s') && Fits(u') && SameLogs(s', u', t, own) && SameLogs(u, u', t, !own) && SameDumped(u, u')
  {
    var s', u' := Step(s, a), Step(u, a);
    PushKeepsDumped(s, a);
    PushKeepsDumped(u, a);
    if a.t < |s.pushed| {
      assert SameLog(s, u, a.t);
      PushDependsOnOwnLog(s, u, a);
    }
    forall i | 0 <= i < |s'.pushed| && (i == t) == own ensures SameLog(s', u', i) {
      assert SameLog(s, u, i);
      if i != a.t {
        PushKeepsOthers(s, a, i);
        PushKeepsOthers(u, a, i);
      }
    }
    forall i | 0 <= i < |u.pushed| && (i == t) != own ensures SameLog(u, u', i) { PushKeepsOthers(u, a, i); }
  }

  lemma OtherActionKeepsLogs(s: State, a: Action, t: nat, own: bool)
    requires Fits(s) && (!IsPush(a) || (a.t == t) != own)
    ensures Fits(Step(s, a)) && SameLogs(s, Step(s, a), t, own)
  {
  }

  /** The pushes of some threads alone bring those threads to the same point, and leave all else as it was. */
  lemma {:induction false} PushesSimulate(s: State, u: State, actions: seq<Action>, t: nat, own: bool)
    requires Fits(s) && Fits(u) && SameLogs(s, u, t, own)
    ensures var s', u' := Run(s, actions), Run(u, PushesOf(actions, t, own));
            && Fits(s') && Fits(u') && SameLogs(s', u', t, own) && SameLogs(u, u', t, !own) && SameDumped(u, u')
    decreases |actions|
  {
    if actions != [] {
      var a, rest := actions[0], PushesOf(actions[1..], t, own);
      if IsPush(a) && (a.t == t) == own {
        PushSimulates(s, u, a, t, own);
        PushesSimulate(Step(s, a), Step(u, a), actions[1..], t, own);
        assert ([a] + rest)[1..] == rest;
        LogsChain(u, Step(u, a), Run(Step(u, a), rest), t, !own);
      } else {
        OtherActionKeepsLogs(s, a, t, own);
        LogsChainBack(s, Step(s, a), u, t, own);
        PushesSimulate(Step(s, a), u, actions[1..], t, own);
        assert [] + rest == rest;
      }
    }
  }

  lemma LogsChain(s: State, u: State, v: State, t: nat, own: bool)
    requires SameLogs(s, u, t, own) && SameLogs(u, v, t, own)
    ensures SameLogs(s, v, t, own)
  {
    forall i | 0 <= i < |s.pushed| && (i == t) == own ensures SameLog(s, v, i) {
      assert SameLog(s, u, i) && SameLog(u, v, i);
    }
  }

  lemma LogsChainBack(s: State, s': State, u: State, t: nat, own: bool)
    requires SameLogs(s, s', t, own) && SameLogs(s, u, t, own)
    ensures SameLogs(s', u, t, own)
  {
    forall i | 0 <= i < |s'.pushed| && (i == t) == own ensures SameLog(s', u, i) {
      assert SameLog(s, s', i) && SameLog(s, u, i);
    }
  }

  lemma {:induction false} RunAppends(s: State, a: seq<Action>, b: seq<Action>)
    ensures Run(s, a + b) == Run(Run(s, a), b)
    decreases |a|
  {
    if a == [] {
      assert a + b == b;
    } else {
      assert (a + b)[1..] == a[1..] + b;
      RunAppends(Step(s, a[0]), a[1..], b);
    }
  }

  lemma RunOne(s: State, a: Action)
    ensures Run(s, [a]) == Step(s, a)
  {
    assert [a][1..] == [];
  }

  lemma RunTwo(s: State, a: Action, b: Action)
    ensures Run(s, [a, b]) == Step(Step(s, a), b)
  {
    assert [a, b] == [a] + [b];
    RunAppends(s, [a], [b]);
    RunOne(s, a);
    RunOne(Step(s, a), b);
  }

  /** The state with thread t's first record in the file, its cells gone. */
  ghost predicate RecordDumped(s: State, u: State, t: nat)
    requires t < |s.waiting| && s.waiting[t] != []
  {
    && Inv(u) && u.middle == None && u.start == s.start && u.pushed == s.pushed && u.half == s.half
    && u.waiting == s.waiting[t := s.waiting[t][1..]] && u.dumped == s.dumped + [(t, s.waiting[t][0])]
  }

  lemma DumpOneEntry(s: State, t: nat)
    requires Inv(s) && s.middle == None && t < |s.waiting| && s.waiting[t] != [] && s.waiting[t][0].Entry?
    ensures RecordDumped(s, Step(s, DumpFront(t)), t)
  {
    assert ThreadOk(s, t);
    FrontCell(s.queues[t], s.waiting[t], s.half[t]);
    DumperNeverBlocks(s, t);
    DumpEntryIs(s, t);
    StepKeepsInv(s, DumpFront(t));
  }

  lemma DumpFirstHalf(s: State, t: nat)
    requires Inv(s) && s.middle == None && t < |s.waiting| && s.waiting[t] != [] && s.waiting[t][0].Descriptor?
    requires s.half[t] ==> |s.waiting[t]| > 1
    ensures var u := Step(s, DumpFront(t));
            && Inv(u) && u.middle == Some(t) && t < |u.queues| && u.queues[t] != []
            && u.start == s.start && u.pushed == s.pushed && u.half == s.half && u.waiting == s.waiting
            && u.dumped == s.dumped
  {
    assert ThreadOk(s, t);
    FrontCell(s.queues[t], s.waiting[t], s.half[t]);
    DumperNeverBlocks(s, t);
    StepKeepsInv(s, DumpFront(t));
    assert AfterFirstCell(s.queues[t][1..], s.waiting[t], s.half[t]);
  }

  lemma DumpSecondHalf(u: State, t: nat)
    requires Inv(u) && u.middle == Some(t) && t < |u.queues| && u.queues[t] != []
    ensures t < |u.waiting| && u.waiting[t] != [] && RecordDumped(u, Step(u, DumpSecond), t)
  {
    assert ThreadOk(u, t);
    DumperNeverBlocks(u, t);
    StepKeepsInv(u, DumpSecond);
  }

  /** One record of thread t goes to the file. */
  lemma DumpOneRecord(s: State, t: nat) returns (actions: seq<Action>)
    requires Inv(s) && s.middle == None && t < |s.waiting| && s.waiting[t] != []
    requires s.half[t] ==> |s.waiting[t]| > 1
    ensures RecordDumped(s, Run(s, actions), t)
  {
    if s.waiting[t][0].Entry? {
      actions := [DumpFront(t)];
      DumpOneEntry(s, t);
      RunOne(s, DumpFront(t));
    } else {
      actions := [DumpFront(t), DumpSecond];
      DumpFirstHalf(s, t);
      DumpSecondHalf(Step(s, DumpFront(t)), t);
      RunTwo(s, DumpFront(t), DumpSecond);
    }
  }

  function Of(t: nat, rs: seq<Record>): (d: seq<(nat, Record)>)
    ensures |d| == |rs| && forall i :: 0 <= i < |rs| ==> d[i] == (t, rs[i])
  {
    seq(|rs|, i requires 0 <= i < |rs| => (t, rs[i]))
  }

  lemma OfFirst(t: nat, rs: seq<Record>, n: nat)
    requires 0 < n <= |rs|
    ensures Of(t, rs[..n]) == [(t, rs[0])] + Of(t, rs[1..][..n - 1])
  {
  }

  /** So do the first n, with nothing of any other thread in between. */
  lemma {:induction false} DumpRecords(s: State, t: nat, n: nat) returns (actions: seq<Action>)
    requires Inv(s) && s.middle == None && t < |s.waiting| && n <= |s.waiting[t]|
    requires s.half[t] ==> n < |s.waiting[t]|
    ensures var u := Run(s, actions);
            && Inv(u) && u.start == s.start && u.pushed == s.pushed && u.half == s.half
            && u.dumped == s.dumped + Of(t, s.waiting[t][..n])
    decreases n
  {
    if n == 0 {
      actions := [];
      assert s.dumped + [] == s.dumped;
    } else {
      var first := DumpOneRecord(s, t);
      var u := Run(s, first);
      var more := DumpRecords(u, t, n - 1);
      actions := first + more;
      RunAppends(s, first, more);
      OfFirst(t, s.waiting[t], n);
      Associative(s.dumped, [(t, s.waiting[t][0])], Of(t, u.waiting[t][..n - 1]));
    }
  }

  // ----- Main results

  /** In every run with these logs, wherever the schedule puts the descriptors of other threads. */
  ghost predicate AlwaysTagged(s: State, logs: seq<seq<Record>>, t: nat, b: nat) {
    forall a :: Run(s, a).pushed == logs ==> Tagged(Run(s, a), t, b)
  }

  ghost predicate AlwaysTaggedAnew(s: State, logs: seq<seq<Record>>, t: nat, b: nat) {
    forall a :: Run(s, a).pushed == logs ==> TaggedAnew(Run(s, a), t, b)
  }

  /** The run that serves thread t alone up to its b-th record, and lets the other threads log afterwards. */
  lemma ServeFirst(s: State, actions: seq<Action>, t: nat, b: nat) returns (a: seq<Action>)
    requires Initial(s)
    requires var u := Run(s, actions); t < |u.pushed| && b < |u.pushed[t]| && u.pushed[t][b].Entry?
    ensures var u, v := Run(s, actions), Run(s, a);
            && v.pushed == u.pushed && v.start == s.start && v.dumped == Of(t, u.pushed[t][..b + 1])
  {
    InitialInv(s);
    var u := Run(s, actions);
    RunKeepsInv(s, actions);
    var own, others := PushesOf(actions, t, true), PushesOf(actions, t, false);
    PushesSimulate(s, s, actions, t, true);
    RunKeepsInv(s, own);
    var s1 := Run(s, own);
    assert SameLog(u, s1, t);
    OwnLogWaits(s1, u, t, b);
    var dumps := DumpRecords(s1, t, b + 1);
    var s2 := Run(s1, dumps);
    NewLogsOf(s, s1, s2, t);
    PushesSimulate(s, s2, actions, t, false);
    var s3 := Run(s2, others);
    RunAppends(s, own, dumps);
    RunAppends(s, own + dumps, others);
    a := own + dumps + others;
    AllLogsMatch(u, s1, s2, s3, t);
    assert [] + Of(t, u.pushed[t][..b + 1]) == Of(t, u.pushed[t][..b + 1]);
  }

  lemma OwnLogWaits(s: State, u: State, t: nat, b: nat)
    requires Inv(s) && Inv(u) && s.dumped == [] && s.middle == None && SameLog(u, s, t)
    requires b < |u.pushed[t]| && u.pushed[t][b].Entry?
    ensures s.waiting[t] == u.pushed[t] && (s.half[t] ==> b + 1 < |s.waiting[t]|)
  {
    assert ThreadOk(s, t);
    assert DumpedBy([], t) == [] && [] + s.waiting[t] == s.waiting[t];
    if s.half[t] { HalfEndsInDescriptor(s.queues[t], s.waiting[t]); }
  }

  /** A queue that lacks a second cell ends in the descriptor it belongs to. */
  lemma {:induction false} HalfEndsInDescriptor(q: seq<Cell>, rs: seq<Record>)
    requires CellsOf(q, rs, true)
    ensures rs != [] && rs[|rs| - 1].Descriptor?
    decreases |rs|
  {
    if rs[0].Entry? {
      HalfEndsInDescriptor(q[1..], rs[1..]);
    } else if |rs| > 1 {
      assert AfterFirstCell(q[1..], rs, true);
      HalfEndsInDescriptor(q[1..][1..], rs[1..]);
    }
  }

  lemma NewLogsOf(s: State, s1: State, s2: State, t: nat)
    requires Fits(s) && Fits(s1) && Fits(s2) && SameLogs(s, s1, t, false)
    requires s2.pushed == s1.pushed && s2.half == s1.half
    ensures SameLogs(s, s2, t, false)
  {
    forall i | 0 <= i < |s.pushed| && (i == t) == false ensures SameLog(s, s2, i) { assert SameLog(s, s1, i); }
  }

  lemma AllLogsMatch(u: State, s1: State, s2: State, s3: State, t: nat)
    requires Fits(u) && Fits(s1) && Fits(s2) && Fits(s3) && t < |u.pushed|
    requires SameLogs(u, s1, t, true) && s2.pushed == s1.pushed
    requires SameLogs(s2, s3, t, true) && SameLogs(u, s3, t, false)
    ensures s3.pushed == u.pushed
  {
    forall i | 0 <= i < |u.pushed| ensures s3.pushed[i] == u.pushed[i] {
      if i == t { assert SameLog(u, s1, i) && SameLog(s2, s3, i); } else { assert SameLog(u, s3, i); }
    }
  }

  lemma {:induction false} DumpedByOf(t: nat, rs: seq<Record>)
    ensures DumpedBy(Of(t, rs), t) == rs && Records(Of(t, rs)) == rs
    decreases |rs|
  {
    if rs != [] {
      var n := |rs| - 1;
      assert Of(t, rs)[..n] == Of(t, rs[..n]);
      DumpedByOf(t, rs[..n]);
    }
  }

  lemma PlaceInOf(t: nat, rs: seq<Record>, b: nat)
    requires b == |rs| - 1
    ensures b < |DumpedBy(Of(t, rs), t)| && Place(Of(t, rs), t, b) == b
  {
    DumpedByOf(t, rs);
    assert Of(t, rs)[..b] == Of(t, rs[..b]);
    DumpedByOf(t, rs[..b]);
  }

  /** The stream of a run that served thread t alone: what was there before, then t's own records. */
  lemma ServedStream(v: State, t: nat, log: seq<Record>, b: nat)
    requires b < |log| && log[b].Entry? && v.dumped == Of(t, log[..b + 1])
    ensures DumpedBy(v.dumped, t) == log[..b + 1]
    ensures Stream(v) == v.start + log[..b + 1] && InStream(v, t, b) == |v.start| + b
    ensures Stream(v)[|v.start| + b] == log[b]
  {
    DumpedByOf(t, log[..b + 1]);
    PlaceInOf(t, log[..b + 1], b);
  }

  lemma DescribedInParts(start: seq<Record>, log: seq<Record>, b: nat, id: nat)
    requires b < |log|
    ensures Described(start + log[..b + 1], |start| + b, id)
            <==> Described(start, |start|, id) || Described(log, b, id)
    ensures !Described(log, b, id) ==>
              LastDescriptor(start + log[..b + 1], |start| + b, id) == LastDescriptor(start, |start|, id)
  {
    var rs := start + log[..b + 1];
    if Described(rs, |start| + b, id) {
      var k :| 0 <= k < |start| + b && rs[k].Descriptor? && rs[k].index == id;
      if k < |start| { assert start[k] == rs[k]; } else { assert log[k - |start|] == rs[k]; }
    }
    if Described(start, |start|, id) {
      var k :| 0 <= k < |start| && start[k].Descriptor? && start[k].index == id;
      assert rs[k] == start[k];
    }
    if Described(log, b, id) {
      var k :| 0 <= k < b && log[k].Descriptor? && log[k].index == id;
      assert rs[|start| + k] == log[k];
    } else {
      OnlyInStart(start, log, b, b, id);
    }
  }

  lemma {:induction false} OnlyInStart(start: seq<Record>, log: seq<Record>, b: nat, n: nat, id: nat)
    requires n <= b < |log| && !Described(log, b, id)
    ensures LastDescriptor(start + log[..b + 1], |start| + n, id) == LastDescriptor(start, |start|, id)
  {
    var rs := start + log[..b + 1];
    if n == 0 {
      LastInPrefix(start, log[..b + 1], |start|, id);
    } else {
      OnlyInStart(start, log, b, n - 1, id);
      assert rs[|start| + n - 1] == log[n - 1];
    }
  }

  lemma {:induction false} LastInPrefix(rs: seq<Record>, more: seq<Record>, n: nat, id: nat)
    requires n <= |rs|
    ensures LastDescriptor(rs + more, n, id) == LastDescriptor(rs, n, id)
  {
    if n > 0 { LastInPrefix(rs, more, n - 1, id); }
  }

  /** The reader looks tags up in all of the file, a record half written included: for whole records it is the same. */
  lemma SameTagInFile(s: State, i: nat)
    requires Fits(s) && i < |Stream(s)| && Stream(s)[i].Entry?
    ensures i < |InFile(s)| && InFile(s)[i] == Stream(s)[i] && TagFor(InFile(s), i) == TagFor(Stream(s), i)
  {
    var more := InFile(s)[|Stream(s)|..];
    assert InFile(s) == Stream(s) + more;
    LastInPrefix(Stream(s), more, i, Stream(s)[i].id);
    DescriptorIsOne(Stream(s), i, Stream(s)[i].id);
  }

  /** In every run a thread's dumped records are the first of its log. */
  lemma DumpedIsLog(s: State, a: seq<Action>, t: nat, b: nat)
    requires Initial(s) && t < |Run(s, a).pushed| && b < |DumpedBy(Run(s, a).dumped, t)|
    ensures var v := Run(s, a);
            v.start == s.start && b < |v.pushed[t]| && DumpedBy(v.dumped, t)[..b + 1] == v.pushed[t][..b + 1]
  {
    InitialInv(s);
    RunKeepsInv(s, a);
    assert ThreadOk(Run(s, a), t);
  }

  lemma OwnDescriptorAlwaysTags(s: State, a: seq<Action>, t: nat, b: nat)
    requires Initial(s) && t < |Run(s, a).pushed| && b < |Run(s, a).pushed[t]| && Run(s, a).pushed[t][b].Entry?
    requires var log := Run(s, a).pushed[t]; Described(log, b, log[b].id)
    ensures Tagged(Run(s, a), t, b) && TaggedAnew(Run(s, a), t, b)
  {
    var v := Run(s, a);
    var log := v.pushed[t];
    var c :| 0 <= c < b && log[c].Descriptor? && log[c].index == log[b].id;
    if b < |DumpedBy(v.dumped, t)| {
      DumpedIsLog(s, a, t, b);
      var rs := DumpedBy(v.dumped, t);
      assert rs[b] == rs[..b + 1][b] && rs[c] == rs[..b + 1][c];
      OwnDescriptorTags(v, t, b, c);
    }
  }

  lemma StartDescriptorAlwaysTags(s: State, a: seq<Action>, t: nat, b: nat)
    requires Initial(s) && t < |Run(s, a).pushed| && b < |Run(s, a).pushed[t]| && Run(s, a).pushed[t][b].Entry?
    requires Described(s.start, |s.start|, Run(s, a).pushed[t][b].id)
    ensures Tagged(Run(s, a), t, b)
  {
    var v := Run(s, a);
    if b < |DumpedBy(v.dumped, t)| {
      DumpedIsLog(s, a, t, b);
      var rs := DumpedBy(v.dumped, t);
      assert rs[b] == rs[..b + 1][b];
      StartDescriptorTags(v, t, b);
    }
  }

  /** Nothing earlier describes the entry: the run that serves its thread first leaves it without a tag. */
  lemma UndescribedGoesUntagged(s: State, actions: seq<Action>, t: nat, b: nat) returns (a: seq<Action>)
    requires Initial(s)
    requires var u := Run(s, actions); t < |u.pushed| && b < |u.pushed[t]| && u.pushed[t][b].Entry?
    requires var log := Run(s, actions).pushed[t];
             !Described(s.start, |s.start|, log[b].id) && !Described(log, b, log[b].id)
    ensures Run(s, a).pushed == Run(s, actions).pushed && !Tagged(Run(s, a), t, b)
  {
    var log := Run(s, actions).pushed[t];
    a := ServeFirst(s, actions, t, b);
    var v := Run(s, a);
    ServedStream(v, t, log, b);
    DescribedInParts(v.start, log, b, log[b].id);
    DescribedIffLast(Stream(v), |v.start| + b, log[b].id);
  }

  /** Nothing in its own log describes it: the same run does not find a tag logged since the start. */
  lemma UndescribedIsNotTaggedAnew(s: State, actions: seq<Action>, t: nat, b: nat) returns (a: seq<Action>)
    requires Initial(s)
    requires var u := Run(s, actions); t < |u.pushed| && b < |u.pushed[t]| && u.pushed[t][b].Entry?
    requires var log := Run(s, actions).pushed[t]; !Described(log, b, log[b].id)
    ensures Run(s, a).pushed == Run(s, actions).pushed && !TaggedAnew(Run(s, a), t, b)
  {
    var log := Run(s, actions).pushed[t];
    a := ServeFirst(s, actions, t, b);
    var v := Run(s, a);
    ServedStream(v, t, log, b);
    DescribedInParts(v.start, log, b, log[b].id);
    DescribedIffLast(v.start, |v.start|, log[b].id);
  }

  lemma DescribedIsAlwaysTagged(s: State, logs: seq<seq<Record>>, t: nat, b: nat)
    requires Initial(s) && t < |logs| && b < |logs[t]| && logs[t][b].Entry?
    ensures Described(s.start, |s.start|, logs[t][b].id) || Described(logs[t], b, logs[t][b].id)
            ==> AlwaysTagged(s, logs, t, b)
    ensures Described(logs[t], b, logs[t][b].id) ==> AlwaysTaggedAnew(s, logs, t, b)
  {
    forall a: seq<Action> | Run(s, a).pushed == logs
      ensures Described(s.start, |s.start|, logs[t][b].id) || Described(logs[t], b, logs[t][b].id)
              ==> Tagged(Run(s, a), t, b)
      ensures Described(logs[t], b, logs[t][b].id) ==> TaggedAnew(Run(s, a), t, b)
    {
      if Described(logs[t], b, logs[t][b].id) {
        OwnDescriptorAlwaysTags(s, a, t, b);
      } else if Described(s.start, |s.start|, logs[t][b].id) {
        StartDescriptorAlwaysTags(s, a, t, b);
      }
    }
  }

  /**
   * An entry comes back tagged, whatever the schedule, if and only if a descriptor of its event was in the file
   * before or stands earlier in the log of its own thread. One in another thread's log does not help.
   */
  lemma TaggedIff(s: State, actions: seq<Action>, t: nat, b: nat)
    requires Initial(s)
    requires var u := Run(s, actions); t < |u.pushed| && b < |u.pushed[t]| && u.pushed[t][b].Entry?
    ensures var logs := Run(s, actions).pushed; var id := logs[t][b].id;
            AlwaysTagged(s, logs, t, b) <==> Described(s.start, |s.start|, id) || Described(logs[t], b, id)
  {
    var u := Run(s, actions);
    var id := u.pushed[t][b].id;
    if Described(s.start, |s.start|, id) || Described(u.pushed[t], b, id) {
      DescribedIsAlwaysTagged(s, u.pushed, t, b);
    } else {
      var a := UndescribedGoesUntagged(s, actions, t, b);
    }
  }

  /**
   * The tag is one logged since the dumper started, whatever the schedule, if and only if the thread itself logged
   * a descriptor before the entry. Otherwise there is a run in which a tag that an earlier run left is used.
   */
  lemma TaggedAnewIff(s: State, actions: seq<Action>, t: nat, b: nat)
    requires Initial(s)
    requires var u := Run(s, actions); t < |u.pushed| && b < |u.pushed[t]| && u.pushed[t][b].Entry?
    ensures var logs := Run(s, actions).pushed;
            AlwaysTaggedAnew(s, logs, t, b) <==> Described(logs[t], b, logs[t][b].id)
  {
    var u := Run(s, actions);
    if Described(u.pushed[t], b, u.pushed[t][b].id) {
      DescribedIsAlwaysTagged(s, u.pushed, t, b);
    } else {
      var a := UndescribedIsNotTaggedAnew(s, actions, t, b);
    }
  }

  /** The stale tag: the last one that the file held for this event before the dumper started. */
  lemma StaleTag(s: State, actions: seq<Action>, t: nat, b: nat) returns (a: seq<Action>)
    requires Initial(s)
    requires var u := Run(s, actions); t < |u.pushed| && b < |u.pushed[t]| && u.pushed[t][b].Entry?
    requires var log := Run(s, actions).pushed[t];
             Described(s.start, |s.start|, log[b].id) && !Described(log, b, log[b].id)
    ensures var u, v := Run(s, actions), Run(s, a);
            && v.pushed == u.pushed && b < |DumpedBy(v.dumped, t)| && DumpedBy(v.dumped, t)[b] == u.pushed[t][b]
            && var last := LastDescriptor(s.start, |s.start|, u.pushed[t][b].id);
               last.Some? && last.value < |s.start| && s.start[last.value].Descriptor?
               && TagFor(Stream(v), InStream(v, t, b)) == Some(s.start[last.value].tag)
  {
    var log := Run(s, actions).pushed[t];
    a := ServeFirst(s, actions, t, b);
    var v := Run(s, a);
    ServedStream(v, t, log, b);
    DescribedInParts(v.start, log, b, log[b].id);
    DescribedIffLast(v.start, |v.start|, log[b].id);
    DescriptorIsOne(Stream(v), |v.start| + b, log[b].id);
  }

  // ----- A pass of the dumper that does it

  /** A cell with these bytes first. */
  function CellWith(bytes: seq<byte>): (c: Cell)
    requires |bytes| <= CELL
    ensures |c| == CELL && bytes <= c
  {
    bytes + Zeros(CELL - |bytes|)
  }

  function Push(t: nat, r: Record): seq<Action>
    requires Valid(r)
  {
    if r.Entry? then [PushEntry(t, r, CellWith(r.raw))]
    else [PushFirstCell(t, r), PushSecondCell(t, CellWith(r.raw[CELL..]))]
  }

  /** Thread t logs one record. */
  lemma PushIs(s: State, t: nat, r: Record)
    requires Fits(s) && t < |s.queues| && !s.half[t] && Valid(r)
    ensures var u := Run(s, Push(t, r));
            && Fits(u) && |u.queues| == |s.queues| && u.half == s.half && SameDumped(s, u)
            && u.waiting == s.waiting[t := s.waiting[t] + [r]] && u.pushed == s.pushed[t := s.pushed[t] + [r]]
  {
    if r.Entry? {
      RunOne(s, PushEntry(t, r, CellWith(r.raw)));
    } else {
      var a, b := PushFirstCell(t, r), PushSecondCell(t, CellWith(r.raw[CELL..]));
      RunTwo(s, a, b);
      var u := Step(s, a);
      assert u.pushed[t][|u.pushed[t]| - 1] == r && Enabled(u, b);
      assert s.half[t := true][t := false] == s.half;
    }
  }

  /**
   * The first thread has logged the descriptors d1 and d2, the second an entry of the event of d2. One pass of the
   * dumper takes one record from each thread: d1, then the entry, which now stands before its descriptor.
   */
  lemma OnePassUntags(s: State, d1: Record, d2: Record, e: Record) returns (actions: seq<Action>)
    requires Initial(s) && |s.queues| == 2 && Valid(d1) && Valid(d2) && Valid(e)
    requires d1.Descriptor? && d2.Descriptor? && e.Entry? && d2.index == e.id && d1.index != e.id
    requires !Described(s.start, |s.start|, e.id)
    ensures var u := Run(s, actions);
            && u.pushed == [[d1, d2], [e]] && u.dumped == [(0, d1), (1, e)]
            && Stream(u) == s.start + [d1, e] && TagFor(Stream(u), |s.start| + 1) == None
  {
    InitialInv(s);
    var logged := Push(0, d1) + Push(0, d2) + Push(1, e);
    var s1 := Run(s, Push(0, d1));
    var s2 := Run(s1, Push(0, d2));
    var s3 := Run(s2, Push(1, e));
    PushIs(s, 0, d1);
    PushIs(s1, 0, d2);
    PushIs(s2, 1, e);
    RunAppends(s, Push(0, d1), Push(0, d2));
    RunAppends(s, Push(0, d1) + Push(0, d2), Push(1, e));
    RunKeepsInv(s, logged);
    LogsOf(s, s3, d1, d2, e);
    var first := DumpOneRecord(s3, 0);
    var s4 := Run(s3, first);
    var second := DumpOneRecord(s4, 1);
    actions := logged + first + second;
    RunAppends(s, logged, first);
    RunAppends(s, logged + first, second);
    UntaggedAfterOther(s.start, d1, e);
    assert Records([(0, d1), (1, e)][..1]) == [d1] by { assert [(0, d1), (1, e)][..1][..0] == []; }
  }

  lemma LogsOf(s: State, u: State, d1: Record, d2: Record, e: Record)
    requires Initial(s) && |s.queues| == 2 && Fits(u)
    requires u.waiting == s.waiting[0 := s.waiting[0] + [d1]][0 := s.waiting[0] + [d1] + [d2]][1 := s.waiting[1] + [e]]
    requires u.pushed == s.pushed[0 := s.pushed[0] + [d1]][0 := s.pushed[0] + [d1] + [d2]][1 := s.pushed[1] + [e]]
    ensures u.waiting == [[d1, d2], [e]] && u.pushed == [[d1, d2], [e]]
  {
    assert s.waiting[0] + [d1] + [d2] == [d1, d2] && s.waiting[1] + [e] == [e];
    assert s.pushed[0] + [d1] + [d2] == [d1, d2] && s.pushed[1] + [e] == [e];
    assert u.waiting[0] == [d1, d2] && u.waiting[1] == [e];
    assert u.pushed[0] == [d1, d2] && u.pushed[1] == [e];
  }

  lemma UntaggedAfterOther(start: seq<Record>, d: Record, e: Record)
    requires d.Descriptor? && e.Entry? && d.index != e.id && !Described(start, |start|, e.id)
    ensures TagFor(start + [d, e], |start| + 1) == None
  {
    var rs := start + [d, e];
    assert rs[|start|] == d && rs[|start| + 1] == e;
    DescribedIffLast(rs, |start| + 1, e.id);
    forall k | 0 <= k < |start| + 1 && rs[k].Descriptor? ensures rs[k].index != e.id {
      if k < |start| { assert start[k] == rs[k]; }
    }
  }
}
