/** When a write call of the shortprint driver can go to sleep for ever. */
module ShortprintStall {
  import opened Bytes
  import opened Common
  import opened Shortprint

  // ----- Stuck for ever

  lemma StuckStays(s: State, a: Action)
    requires Inv(s) && Stuck(s) && Enabled(s, a) && a != Interrupted
    ensures Stuck(Step(s, a)) && Step(s, a).writer == s.writer
  {
  }

  /** Whatever printer, work item, timer and handlers do, only a signal ends the call. */
  lemma {:induction false} StuckForever(s: State, actions: seq<Action>)
    requires Inv(s) && Stuck(s) && Interrupted !in actions
    ensures Stuck(Run(s, actions)) && Run(s, actions).writer == s.writer
    decreases |actions|
  {
    if actions != [] {
      if Enabled(s, actions[0]) {
        StepKeepsInv(s, actions[0]);
        StuckStays(s, actions[0]);
        StuckForever(Step(s, actions[0]), actions[1..]);
      } else {
        StuckForever(s, actions[1..]);
      }
    }
  }

  // ----- One state leads to another

  predicate NoBegin(actions: seq<Action>) { forall a :: a in actions ==> !a.WriterBegin? }

  /** By steps of anybody, none of which starts a write call. */
  ghost predicate Leads(s: State, t: State) {
    Inv(s) && exists actions :: NoBegin(actions) && Run(s, actions) == t
  }

  ghost predicate Reachable(t: State) {
    exists s, actions :: Init(s) && Run(s, actions) == t
  }

  lemma {:induction false} RunAppends(s: State, xs: seq<Action>, ys: seq<Action>)
    requires Inv(s)
    ensures Inv(Run(s, xs)) && Run(s, xs + ys) == Run(Run(s, xs), ys)
    decreases |xs|
  {
    if xs == [] {
      assert xs + ys == ys;
    } else {
      assert (xs + ys)[0] == xs[0] && (xs + ys)[1..] == xs[1..] + ys;
      if Enabled(s, xs[0]) {
        StepKeepsInv(s, xs[0]);
        RunAppends(Step(s, xs[0]), xs[1..], ys);
      } else {
        RunAppends(s, xs[1..], ys);
      }
    }
  }

  lemma RunOne(s: State, a: Action)
    requires Inv(s) && Enabled(s, a)
    ensures Inv(Step(s, a)) && Run(s, [a]) == Step(s, a)
  {
    StepKeepsInv(s, a);
    assert [a][1..] == [];
  }

  lemma LeadsToItself(s: State)
    requires Inv(s)
    ensures Leads(s, s)
  {
    assert NoBegin([]) && Run(s, []) == s;
  }

  lemma LeadsOn(s: State, t: State, u: State)
    requires Leads(s, t) && Leads(t, u)
    ensures Leads(s, u)
  {
    var xs :| NoBegin(xs) && Run(s, xs) == t;
    var ys :| NoBegin(ys) && Run(t, ys) == u;
    RunAppends(s, xs, ys);
    assert NoBegin(xs + ys);
  }

  lemma LeadsOneFurther(s: State, t: State, a: Action)
    requires Leads(s, t) && Inv(t) && Enabled(t, a) && !a.WriterBegin?
    ensures Leads(s, Step(t, a)) && Inv(Step(t, a))
  {
    RunOne(t, a);
    assert NoBegin([a]);
    LeadsOn(s, t, Step(t, a));
  }

  lemma ReachableOn(t: State, u: State)
    requires Reachable(t) && Leads(t, u)
    ensures Reachable(u) && Inv(u)
  {
    var s, xs :| Init(s) && Run(s, xs) == t;
    var ys :| NoBegin(ys) && Run(t, ys) == u;
    RunAppends(s, xs, ys);
    RunKeepsInv(s, xs + ys);
  }

  // ----- A write call that can get stuck

  /** `t` lies within the call that starts in `u`, when `a` bytes have been accepted, to write `data`. */
  ghost predicate WithinWrite(u: State, a: nat, data: seq<byte>, t: State) {
    && Reachable(u) && Inv(u) && u.writer == NoWriter && |u.out.accepted| == a
    && Leads(Step(u, WriterBegin(data)), t)
  }

  ghost predicate CanStick(a: nat, data: seq<byte>) {
    exists u, t :: WithinWrite(u, a, data, t) && Stuck(t)
  }

  /** The first full page, at `a` bytes or behind them. */
  function NextPage(a: nat): nat {
    if a == 0 then PAGE_SIZE else (a + PAGE_SIZE - 1) / PAGE_SIZE * PAGE_SIZE
  }

  lemma NextPageIsNext(a: nat)
    ensures NextPage(a) >= a && NextPage(a) >= PAGE_SIZE && NextPage(a) % PAGE_SIZE == 0
    ensures forall m :: m >= a && m > 0 && m % PAGE_SIZE == 0 ==> m >= NextPage(a)
  {
  }

  // ----- It must pass a full page with bytes left

  /** A call takes its bytes one after the other and loses none. */
  ghost predicate InCall(t: State, a: nat, total: nat) {
    t.writer.NoWriter? || (a <= |t.out.accepted| && |t.out.accepted| + |t.writer.rest| == total)
  }

  lemma StepKeepsCall(t: State, act: Action, a: nat, total: nat)
    requires Inv(t) && Enabled(t, act) && !act.WriterBegin? && InCall(t, a, total)
    ensures InCall(Step(t, act), a, total)
  {
  }

  lemma {:induction false} RunKeepsCall(t: State, actions: seq<Action>, a: nat, total: nat)
    requires Inv(t) && NoBegin(actions) && InCall(t, a, total)
    ensures InCall(Run(t, actions), a, total)
    decreases |actions|
  {
    if actions != [] {
      assert actions[0] in actions && NoBegin(actions[1..]);
      if Enabled(t, actions[0]) {
        StepKeepsInv(t, actions[0]);
        StepKeepsCall(t, actions[0], a, total);
        RunKeepsCall(Step(t, actions[0]), actions[1..], a, total);
      } else {
        RunKeepsCall(t, actions[1..], a, total);
      }
    }
  }

  lemma StuckAtPage(t: State)
    requires Inv(t) && Stuck(t)
    ensures |t.out.accepted| > 0 && |t.out.accepted| % PAGE_SIZE == 0 && t.writer.rest != []
  {
  }

  lemma StickingNeedsPage(u: State, a: nat, data: seq<byte>, t: State)
    requires WithinWrite(u, a, data, t) && Stuck(t)
    ensures NextPage(a) < a + |data|
  {
    var v := Step(u, WriterBegin(data));
    var actions :| NoBegin(actions) && Run(v, actions) == t;
    RunKeepsInv(v, actions);
    RunKeepsCall(v, actions, a, a + |data|);
    StuckAtPage(t);
    NextPageIsNext(a);
  }

  // ----- How it happens

  /** Nobody at work, the printer as far behind as it can be, and its next step queued once output has started. */
  ghost predicate Fed(s: State) {
    && Inv(s) && s.lock == Free && s.worker == Resting && (s.active ==> s.workQueued)
    && (s.out.accepted != [] ==> s.active)
    && |s.out.strobed| == if |s.out.accepted| < PAGE_SIZE then 0 else |s.out.accepted| - PAGE_SIZE + 1
  }

  /** The work item prints one byte, wakes nobody that is not on the queue, and is queued again by the interrupt. */
  lemma PrintsOne(s: State) returns (t: State)
    requires Inv(s) && s.lock == Free && s.worker == Resting && s.active && s.workQueued
    requires s.out.head != s.out.tail && (s.writer.Looping? || s.writer.ToEnqueue?)
    ensures t == s.(out := AfterStrobe(s.out), timer := true) && Inv(t) && Leads(s, t)
  {
    LeadsToItself(s);
    LeadsOneFurther(s, s, Dequeue);
    var s1 := Step(s, Dequeue);
    LeadsOneFurther(s, s1, WorkerLock);
    var s2 := Step(s1, WorkerLock);
    LeadsOneFurther(s, s2, ModTimer);
    var s3 := Step(s2, ModTimer);
    LeadsOneFurther(s, s3, Strobe);
    var s4 := Step(s3, Strobe);
    LeadsOneFurther(s, s4, WorkerEnd);
    var s5 := Step(s4, WorkerEnd);
    LeadsOneFurther(s, s5, Irq);
    var s6 := Step(s5, Irq);
    LeadsOneFurther(s, s6, IrqQueue);
    t := Step(s6, IrqQueue);
  }

  /** The loop test finds the room there is. */
  lemma FindsRoom(s: State) returns (t: State)
    requires Inv(s) && s.writer.Looping? && s.writer.rest != [] && Space(s.out.head, s.out.tail) > 0
    ensures t == s.(writer := HasSpace(s.writer.rest, Min(Space(s.out.head, s.out.tail), |s.writer.rest|)))
    ensures Inv(t) && Leads(s, t)
  {
    LeadsToItself(s);
    LeadsOneFurther(s, s, Load);
    LeadsOneFurther(s, Step(s, Load), Look);
    t := Step(Step(s, Load), Look);
  }

  /** After a store: the lock is taken, and output started unless it is active. */
  lemma StartsOutput(s: State) returns (t: State)
    requires Inv(s) && s.writer.Stored? && s.lock == Free && (s.active ==> s.workQueued)
    ensures t == s.(writer := Looping(s.writer.rest), active := true, workQueued := true, timer := t.timer)
    ensures Inv(t) && Leads(s, t)
  {
    LeadsToItself(s);
    LeadsOneFurther(s, s, WriterLock);
    t := Step(s, WriterLock);
    if !s.active {
      LeadsOneFurther(s, t, SetActive);
      var s1 := Step(t, SetActive);
      LeadsOneFurther(s, s1, AddTimer);
      var s2 := Step(s1, AddTimer);
      LeadsOneFurther(s, s2, QueueWork);
      t := Step(s2, QueueWork);
    }
  }

  /** One turn of the loop in shortp_write, when there is room. */
  lemma TakesIn(s: State) returns (t: State)
    requires Inv(s) && s.lock == Free && s.worker == Resting && (s.active ==> s.workQueued)
    requires s.writer.Looping? && s.writer.rest != [] && Space(s.out.head, s.out.tail) > 0
    ensures Inv(t) && Leads(s, t) && t.lock == Free && t.worker == Resting && t.active && t.workQueued
    ensures var k := Min(Space(s.out.head, s.out.tail), |s.writer.rest|);
            && t.writer == Looping(s.writer.rest[k..])
            && |t.out.accepted| == |s.out.accepted| + k && t.out.strobed == s.out.strobed
  {
    var s1 := FindsRoom(s);
    LeadsOneFurther(s, s1, Store);
    var s2 := Step(s1, Store);
    t := StartsOutput(s2);
    LeadsOn(s, s2, t);
  }

  /** The buffer is full when 4095 bytes are pending, and takes one when a byte has been printed. */
  lemma FullByOne(n: nat)
    requires n >= PAGE_SIZE - 1
    ensures n % PAGE_SIZE != (n - PAGE_SIZE + 1) % PAGE_SIZE
    ensures Space(n % PAGE_SIZE, (n - PAGE_SIZE + 2) % PAGE_SIZE) == 1
  {
  }

  lemma FeedOnce(s: State) returns (t: State)
    requires Fed(s) && s.writer.Looping? && s.writer.rest != []
    ensures Fed(t) && Leads(s, t) && t.writer.Looping?
    ensures |t.out.accepted| + |t.writer.rest| == |s.out.accepted| + |s.writer.rest|
    ensures |s.out.accepted| < |t.out.accepted|
    ensures |t.out.accepted| < PAGE_SIZE || |t.out.accepted| == |s.out.accepted| + 1
  {
    var n := |s.out.accepted|;
    if n < PAGE_SIZE - 1 {
      t := TakesIn(s);
    } else {
      FullByOne(n);
      var s1 := PrintsOne(s);
      t := TakesIn(s1);
      LeadsOn(s, s1, t);
    }
  }

  /** The call goes on to `m` bytes: all it has, or at least what fills the buffer. */
  lemma {:induction false} FeedTo(s: State, m: nat) returns (t: State)
    requires Fed(s) && s.writer.Looping?
    requires |s.out.accepted| <= m <= |s.out.accepted| + |s.writer.rest|
    requires m >= PAGE_SIZE - 1 || m == |s.out.accepted| + |s.writer.rest|
    ensures Fed(t) && Leads(s, t) && t.writer.Looping? && |t.out.accepted| == m
    ensures m + |t.writer.rest| == |s.out.accepted| + |s.writer.rest|
    decreases m - |s.out.accepted|
  {
    if |s.out.accepted| == m {
      LeadsToItself(s);
      t := s;
    } else {
      var s1 := FeedOnce(s);
      t := FeedTo(s1, m);
      LeadsOn(s, s1, t);
    }
  }

  lemma Start() returns (s: State)
    ensures Init(s) && Fed(s)
  {
    s := State(Out(Zeros(PAGE_SIZE), 0, 0, [], []), false, NoWriter, Resting, Free, false, false, 0, 0, 0, 0, 0);
  }

  /** A state to start from: one call has written `a` bytes, and what fits in the buffer is still pending. */
  lemma WrittenBefore(a: nat) returns (u: State)
    ensures Fed(u) && Reachable(u) && u.writer == NoWriter && |u.out.accepted| == a
  {
    var s := Start();
    var data := Zeros(a);
    RunOne(s, WriterBegin(data));
    var s1 := Step(s, WriterBegin(data));
    assert Reachable(s1);
    var s2 := FeedTo(s1, a);
    LeadsOneFurther(s1, s2, WriterEnd);
    u := Step(s2, WriterEnd);
    ReachableOn(s1, u);
  }

  /** A full buffer that ends at the start of the page: neither test before the wait queue finds room. */
  lemma FindsNoRoom(s: State) returns (t: State)
    requires Inv(s) && s.writer.Looping? && s.writer.rest != [] && s.out.head == 0 && s.out.tail == 1
    ensures t == s.(writer := ToEnqueue(s.writer.rest)) && Inv(t) && Leads(s, t)
  {
    LeadsToItself(s);
    LeadsOneFurther(s, s, Load);
    var s1 := Step(s, Load);
    LeadsOneFurther(s, s1, Look);
    var s2 := Step(s1, Look);
    LeadsOneFurther(s, s2, Load);
    var s3 := Step(s2, Load);
    LeadsOneFurther(s, s3, Look);
    t := Step(s3, Look);
  }

  /** Nobody is on the wait queue while all bytes but the last are printed. */
  lemma {:induction false} PrintsToLast(s: State) returns (t: State)
    requires Inv(s) && s.lock == Free && s.worker == Resting && s.active && s.workQueued
    requires s.writer.ToEnqueue? && s.out.head == 0 < s.out.tail
    ensures Inv(t) && Leads(s, t) && t.lock == Free && t.worker == Resting && t.active && t.workQueued
    ensures t.writer == s.writer && t.out.head == 0 && t.out.tail == PAGE_SIZE - 1
    decreases PAGE_SIZE - s.out.tail
  {
    if s.out.tail == PAGE_SIZE - 1 {
      LeadsToItself(s);
      t := s;
    } else {
      var s1 := PrintsOne(s);
      t := PrintsToLast(s1);
      LeadsOn(s, s1, t);
    }
  }

  /** On the wait queue, the first load of the last test sees the tail at the last byte. */
  lemma JoinsQueue(s: State) returns (t: State)
    requires Inv(s) && s.writer.ToEnqueue?
    ensures t == s.(writer := Peeked(s.writer.rest, OnQueue(false), s.out.tail)) && Inv(t) && Leads(s, t)
  {
    LeadsToItself(s);
    LeadsOneFurther(s, s, Enqueue);
    LeadsOneFurther(s, Step(s, Enqueue), Load);
    t := Step(Step(s, Enqueue), Load);
  }

  /** The last byte goes out between the two loads: the second sees the tail at the start, behind the first. */
  lemma MissesLast(s: State) returns (t: State)
    requires Inv(s) && s.lock == Free && s.worker == Resting && s.active && s.workQueued
    requires s.writer.Peeked? && s.writer.site == OnQueue(false) && s.writer.first == s.out.tail
    requires s.out.head == 0 && s.out.tail == PAGE_SIZE - 1
    ensures Inv(t) && Leads(s, t) && Stuck(t)
  {
    LeadsToItself(s);
    LeadsOneFurther(s, s, Dequeue);
    var s1 := Step(s, Dequeue);
    LeadsOneFurther(s, s1, WorkerLock);
    var s2 := Step(s1, WorkerLock);
    LeadsOneFurther(s, s2, ModTimer);
    var s3 := Step(s2, ModTimer);
    LeadsOneFurther(s, s3, Strobe);
    var s4 := Step(s3, Strobe);
    LeadsOneFurther(s, s4, Look);
    t := Step(s4, Look);
  }

  lemma SticksAtPage(s: State) returns (t: State)
    requires Fed(s) && s.writer.Looping? && s.writer.rest != []
    requires |s.out.accepted| > 0 && |s.out.accepted| % PAGE_SIZE == 0
    ensures Leads(s, t) && Stuck(t)
  {
    var s1 := FindsNoRoom(s);
    var s2 := PrintsToLast(s1);
    LeadsOn(s, s1, s2);
    var s3 := JoinsQueue(s2);
    LeadsOn(s, s2, s3);
    t := MissesLast(s3);
    LeadsOn(s, s3, t);
  }

  lemma PageLetsItStick(a: nat, data: seq<byte>)
    requires NextPage(a) < a + |data|
    ensures CanStick(a, data)
  {
    NextPageIsNext(a);
    var u := WrittenBefore(a);
    RunOne(u, WriterBegin(data));
    var v := Step(u, WriterBegin(data));
    var w := FeedTo(v, NextPage(a));
    var t := SticksAtPage(w);
    LeadsOn(v, w, t);
    assert WithinWrite(u, a, data, t);
  }

  /**
   * A write call that starts after `a` accepted bytes can go to sleep for ever, on an empty buffer, exactly when
   * full pages have been accepted at some point of the call with bytes still to take.
   */
  lemma StuckIff(a: nat, data: seq<byte>)
    ensures CanStick(a, data) <==> NextPage(a) < a + |data|
  {
    if CanStick(a, data) {
      var u, t :| WithinWrite(u, a, data, t) && Stuck(t);
      StickingNeedsPage(u, a, data, t);
    }
    if NextPage(a) < a + |data| { PageLetsItStick(a, data); }
  }

  /** From the start of the driver: a call that writes more than a page can get stuck. */
  lemma StuckFromInit(data: seq<byte>)
    requires |data| > PAGE_SIZE
    ensures exists s, actions :: Init(s) && Stuck(Run(s, [WriterBegin(data)] + actions))
  {
    var s := Start();
    var v := Step(s, WriterBegin(data));
    RunOne(s, WriterBegin(data));
    var w := FeedTo(v, PAGE_SIZE);
    var t := SticksAtPage(w);
    LeadsOn(v, w, t);
    var actions :| NoBegin(actions) && Run(v, actions) == t;
    RunAppends(s, [WriterBegin(data)], actions);
  }
}
