/** spinlock.hpp, the TICK policy: lock() draws a ticket and spins until the owner counter shows it.
    Both counters are 32 bits wide; equality of int values is equality modulo 2^32. */
module TicketLock {
  import opened Common

  /** `order` is how many tickets were drawn before this one: history, not read by the code. */
  datatype Thread = Outside | Waiting(ticket: nat, order: nat) | Holding(order: nat)

  /** `drawn` and `served` count all calls of fetch_add on mNext and mOwner, `grants` the orders let in. */
  datatype State = State(
    mNext: nat, mOwner: nat, threads: seq<Thread>,
    drawn: nat, served: nat, grants: seq<nat>)

  datatype Action = Draw(i: nat) | Spin(i: nat) | Unlock(i: nat)

  predicate Enabled(s: State, a: Action) {
    match a
    case Draw(i) => i < |s.threads| && s.threads[i].Outside?
    case Spin(i) => i < |s.threads| && s.threads[i].Waiting?
    case Unlock(i) => i < |s.threads| && s.threads[i].Holding?
  }

  function Step(s: State, a: Action): State {
    if !Enabled(s, a) then s else
    match a
    case Draw(i) =>
      s.(mNext := (s.mNext + 1) % WRAP, drawn := s.drawn + 1, threads := s.threads[i := Waiting(s.mNext, s.drawn)])
    case Spin(i) =>
      if s.threads[i].ticket != s.mOwner then s
      else s.(threads := s.threads[i := Holding(s.threads[i].order)], grants := s.grants + [s.threads[i].order])
    case Unlock(i) =>
      s.(mOwner := (s.mOwner + 1) % WRAP, served := s.served + 1, threads := s.threads[i := Outside])
  }

  function Run(s: State, actions: seq<Action>): State
    decreases |actions|
  {
    if actions == [] then s else Run(Step(s, actions[0]), actions[1..])
  }

  ghost predicate Initial(s: State) {
    && s.mNext == s.mOwner == s.drawn == s.served == 0 && s.grants == []
    && forall i :: 0 <= i < |s.threads| ==> s.threads[i] == Outside
  }

  // ----- The invariant

  ghost predicate ThreadOk(s: State, t: Thread) {
    match t
    case Outside => true
    case Waiting(ticket, order) => s.served <= order < s.drawn && ticket == order % WRAP && order >= |s.grants|
    case Holding(order) => order == s.served && s.drawn > s.served && |s.grants| == s.served + 1
  }

  ghost predicate HasOrder(t: Thread, order: nat) {
    !t.Outside? && t.order == order
  }

  ghost predicate Owned(s: State, k: nat) {
    exists i :: 0 <= i < |s.threads| && HasOrder(s.threads[i], k)
  }

  /** Every outstanding ticket belongs to a thread. */
  ghost predicate AllOutstanding(s: State) {
    forall k: nat :: s.served <= k < s.drawn ==> Owned(s, k)
  }

  ghost predicate DistinctOrders(s: State) {
    forall i, j :: 0 <= i < j < |s.threads| && !s.threads[i].Outside? && !s.threads[j].Outside? ==>
      s.threads[i].order != s.threads[j].order
  }

  ghost predicate Inv(s: State) {
    && s.mNext == s.drawn % WRAP && s.mOwner == s.served % WRAP && s.served <= s.drawn
    && s.served <= |s.grants| <= s.served + 1
    && (forall k :: 0 <= k < |s.grants| ==> s.grants[k] == k)
    && (forall i :: 0 <= i < |s.threads| ==> ThreadOk(s, s.threads[i]))
    && (|s.grants| == s.served + 1 ==> exists i :: 0 <= i < |s.threads| && s.threads[i] == Holding(s.served))
    && DistinctOrders(s) && AllOutstanding(s)
  }

  // ----- At most one outstanding ticket per thread

  /** Tickets drawn and not yet served, the holder's among them. */
  function Outstanding(s: State): int { s.drawn - s.served }

  ghost function Orders(threads: seq<Thread>): (r: set<nat>)
    ensures |r| <= |threads|
    ensures forall i :: 0 <= i < |threads| && !threads[i].Outside? ==> threads[i].order in r
  {
    if threads == [] then {}
    else Orders(threads[1..]) + if threads[0].Outside? then {} else {threads[0].order}
  }

  ghost function Range(lo: nat, hi: nat): (r: set<nat>)
    requires lo <= hi
    ensures |r| == hi - lo
    ensures forall k :: k in r <==> lo <= k < hi
    decreases hi - lo
  {
    if lo == hi then {} else {lo} + Range(lo + 1, hi)
  }

  lemma SubsetSize(a: set<nat>, b: set<nat>)
    requires a <= b
    ensures |a| <= |b|
  {
    assert b == a + (b - a);
  }

  lemma OutstandingFewerThanThreads(s: State)
    requires Inv(s)
    ensures Outstanding(s) <= |s.threads|
  {
    forall k | k in Range(s.served, s.drawn) ensures k in Orders(s.threads) {
      assert Owned(s, k);
      var i :| 0 <= i < |s.threads| && HasOrder(s.threads[i], k);
    }
    SubsetSize(Range(s.served, s.drawn), Orders(s.threads));
  }

  lemma IncrementWraps(n: nat)
    ensures (n % WRAP + 1) % WRAP == (n + 1) % WRAP
  {
  }

  /** With at most 2^32 tickets out, only the oldest one shows the owner's value, wrapped or not. */
  lemma OnlyOldestMatches(s: State, i: nat)
    requires Inv(s) && Outstanding(s) <= WRAP && i < |s.threads| && s.threads[i].Waiting?
    ensures s.threads[i].ticket == s.mOwner <==> s.threads[i].order == s.served
  {
    assert ThreadOk(s, s.threads[i]);
    if s.threads[i].ticket == s.mOwner { SameResidue(s.served, s.threads[i].order); }
  }

  lemma DrawKeepsInv(s: State, i: nat)
    requires Inv(s) && Enabled(s, Draw(i))
    ensures Inv(Step(s, Draw(i)))
  {
    var t := Step(s, Draw(i));
    IncrementWraps(s.drawn);
    assert HasOrder(t.threads[i], s.drawn);
    forall k: nat | t.served <= k < t.drawn ensures Owned(t, k) {
      if k < s.drawn {
        assert Owned(s, k);
        var j :| 0 <= j < |s.threads| && HasOrder(s.threads[j], k);
        assert HasOrder(t.threads[j], k);
      }
    }
    forall j | 0 <= j < |t.threads| ensures ThreadOk(t, t.threads[j]) {
      assert ThreadOk(s, s.threads[j]);
    }
    if |s.grants| == s.served + 1 {
      var h :| 0 <= h < |s.threads| && s.threads[h] == Holding(s.served);
      assert t.threads[h] == Holding(s.served);
    }
  }

  lemma SpinKeepsInv(s: State, i: nat)
    requires Inv(s) && Outstanding(s) <= WRAP && Enabled(s, Spin(i))
    ensures Inv(Step(s, Spin(i)))
  {
    OnlyOldestMatches(s, i);
    var t := Step(s, Spin(i));
    if t != s {
      assert ThreadOk(s, s.threads[i]);
      assert t.threads[i] == Holding(s.served);
      forall k: nat | t.served <= k < t.drawn ensures Owned(t, k) {
        assert Owned(s, k);
        var j :| 0 <= j < |s.threads| && HasOrder(s.threads[j], k);
        assert HasOrder(t.threads[j], k);
      }
      forall j | 0 <= j < |t.threads| ensures ThreadOk(t, t.threads[j]) {
        assert ThreadOk(s, s.threads[j]);
      }
    }
  }

  lemma UnlockKeepsInv(s: State, i: nat)
    requires Inv(s) && Enabled(s, Unlock(i))
    ensures Inv(Step(s, Unlock(i)))
  {
    var t := Step(s, Unlock(i));
    IncrementWraps(s.served);
    assert ThreadOk(s, s.threads[i]);
    forall k: nat | t.served <= k < t.drawn ensures Owned(t, k) {
      assert Owned(s, k);
      var j :| 0 <= j < |s.threads| && HasOrder(s.threads[j], k);
      assert HasOrder(t.threads[j], k);
    }
    forall j | 0 <= j < |t.threads| ensures ThreadOk(t, t.threads[j]) {
      assert ThreadOk(s, s.threads[j]);
    }
  }

  /** Only the comparison in the spin loop needs the bound on the tickets that are out. */
  lemma StepKeepsInv(s: State, a: Action)
    requires Inv(s) && (a.Spin? ==> Outstanding(s) <= WRAP)
    ensures Inv(Step(s, a)) && |Step(s, a).threads| == |s.threads|
  {
    if Enabled(s, a) {
      match a
      case Draw(i) => DrawKeepsInv(s, i);
      case Spin(i) => SpinKeepsInv(s, i);
      case Unlock(i) => UnlockKeepsInv(s, i);
    }
  }

  /** No state of the run has more than `bound` tickets out. */
  ghost predicate AtMostOut(s: State, actions: seq<Action>, bound: nat)
    decreases |actions|
  {
    Outstanding(s) <= bound && (actions != [] ==> AtMostOut(Step(s, actions[0]), actions[1..], bound))
  }

  lemma {:induction false} RunKeepsInv(s: State, actions: seq<Action>)
    requires Inv(s) && AtMostOut(s, actions, WRAP)
    ensures Inv(Run(s, actions))
    decreases |actions|
  {
    if actions != [] {
      StepKeepsInv(s, actions[0]);
      RunKeepsInv(Step(s, actions[0]), actions[1..]);
    }
  }

  // ----- Main results

  ghost predicate Exclusive(s: State) {
    forall i, j :: 0 <= i < j < |s.threads| ==> !(s.threads[i].Holding? && s.threads[j].Holding?)
  }

  /**
   * For any number of threads, as long as at most 2^32 tickets are out: one holder at a time, let in exactly in
   * the order in which tickets were drawn.
   */
  lemma ExclusiveAndFair(s: State, actions: seq<Action>)
    requires Initial(s) && AtMostOut(s, actions, WRAP)
    ensures Exclusive(Run(s, actions))
    ensures var t := Run(s, actions); forall k :: 0 <= k < |t.grants| ==> t.grants[k] == k
  {
    RunKeepsInv(s, actions);
    var t := Run(s, actions);
    forall i, j | 0 <= i < j < |t.threads| ensures !(t.threads[i].Holding? && t.threads[j].Holding?) {
      assert ThreadOk(t, t.threads[i]) && ThreadOk(t, t.threads[j]);
    }
  }

  /** Each thread has at most one ticket, so 2^32 threads can never have more tickets out. */
  lemma {:induction false} FewThreadsFewOut(s: State, actions: seq<Action>)
    requires Inv(s) && |s.threads| <= WRAP
    ensures AtMostOut(s, actions, WRAP)
    decreases |actions|
  {
    OutstandingFewerThanThreads(s);
    if actions != [] {
      StepKeepsInv(s, actions[0]);
      FewThreadsFewOut(Step(s, actions[0]), actions[1..]);
    }
  }

  // ----- The bound is exact: one ticket more and two can hold the lock

  lemma {:induction false} RunAppends(s: State, a: seq<Action>, b: seq<Action>)
    ensures Run(s, a + b) == Run(Run(s, a), b)
    decreases |a|
  {
    if a == [] {
      assert a + b == b;
    } else {
      assert (a + b)[1..] == a[1..] + b;
      RunAppends(Step(s, a[0]), a[1..], b);
    }
  }

  lemma RunOne(s: State, a: Action)
    ensures Run(s, [a]) == Step(s, a)
  {
    assert [a][1..] == [];
  }

  function Draws(n: nat): seq<Action> {
    if n == 0 then [] else Draws(n - 1) + [Draw(n - 1)]
  }

  lemma {:induction false} AllDraw(s: State, n: nat)
    requires Initial(s) && n <= |s.threads|
    ensures var t := Run(s, Draws(n));
            && |t.threads| == |s.threads| && t.drawn == n && t.served == 0
            && t.mNext == n % WRAP && t.mOwner == 0
            && (forall i: nat :: i < n ==> t.threads[i] == Waiting(i % WRAP, i))
            && (forall i :: n <= i < |t.threads| ==> t.threads[i] == Outside)
  {
    if n > 0 {
      AllDraw(s, n - 1);
      RunAppends(s, Draws(n - 1), [Draw(n - 1)]);
      RunOne(Run(s, Draws(n - 1)), Draw(n - 1));
      IncrementWraps(n - 1);
    }
  }

  lemma TwoHolders(s: State)
    requires Initial(s) && |s.threads| > WRAP
    ensures !Exclusive(Run(s, Draws(WRAP + 1) + [Spin(0)] + [Spin(WRAP)]))
  {
    var t := Run(s, Draws(WRAP + 1));
    AllDraw(s, WRAP + 1);
    RunAppends(s, Draws(WRAP + 1), [Spin(0)]);
    RunAppends(s, Draws(WRAP + 1) + [Spin(0)], [Spin(WRAP)]);
    RunOne(t, Spin(0));
    RunOne(Step(t, Spin(0)), Spin(WRAP));
    var u := Step(Step(t, Spin(0)), Spin(WRAP));
    assert u.threads[0].Holding? && u.threads[WRAP].Holding?;
  }

  lemma ExclusiveIffNoWrap(s: State)
    requires Initial(s)
    ensures (forall actions :: Exclusive(Run(s, actions))) <==> |s.threads| <= WRAP
  {
    if |s.threads| <= WRAP {
      forall actions ensures Exclusive(Run(s, actions)) {
        FewThreadsFewOut(s, actions);
        ExclusiveAndFair(s, actions);
      }
    } else {
      TwoHolders(s);
    }
  }

  /** Every run that keeps at most `bound` tickets out is exclusive, for any number of threads. */
  ghost predicate SafeUpTo(bound: nat) {
    forall s, actions :: Initial(s) && AtMostOut(s, actions, bound) ==> Exclusive(Run(s, actions))
  }

  lemma {:induction false} AtMostOutAppends(s: State, a: seq<Action>, b: seq<Action>, bound: nat)
    requires AtMostOut(s, a, bound) && AtMostOut(Run(s, a), b, bound)
    ensures AtMostOut(s, a + b, bound)
    decreases |a|
  {
    if a == [] {
      assert a + b == b;
    } else {
      assert (a + b)[0] == a[0] && (a + b)[1..] == a[1..] + b;
      AtMostOutAppends(Step(s, a[0]), a[1..], b, bound);
    }
  }

  lemma AtMostOutOne(s: State, a: Action, bound: nat)
    requires Outstanding(s) <= bound && Outstanding(Step(s, a)) <= bound
    ensures AtMostOut(s, [a], bound)
  {
    assert [a][1..] == [];
  }

  lemma {:induction false} DrawsOut(s: State, n: nat)
    requires Initial(s) && n <= |s.threads|
    ensures AtMostOut(s, Draws(n), n)
  {
    if n > 0 {
      DrawsOut(s, n - 1);
      AllDraw(s, n - 1);
      AllDraw(s, n);
      var t := Run(s, Draws(n - 1));
      RunAppends(s, Draws(n - 1), [Draw(n - 1)]);
      RunOne(t, Draw(n - 1));
      MoreMayBeOut(s, Draws(n - 1), n - 1, n);
      DrawOneOut(t, n - 1, n);
      AtMostOutAppends(s, Draws(n - 1), [Draw(n - 1)], n);
    }
  }

  lemma DrawOneOut(t: State, i: nat, bound: nat)
    requires Enabled(t, Draw(i)) && t.served == 0 && t.drawn < bound
    ensures AtMostOut(t, [Draw(i)], bound)
  {
    AtMostOutOne(t, Draw(i), bound);
  }

  lemma {:induction false} MoreMayBeOut(s: State, actions: seq<Action>, b: nat, c: nat)
    requires AtMostOut(s, actions, b) && b <= c
    ensures AtMostOut(s, actions, c)
    decreases |actions|
  {
    if actions != [] { MoreMayBeOut(Step(s, actions[0]), actions[1..], b, c); }
  }

  /** Two spins after all the draws leave the same tickets out. */
  lemma TwoHoldersOut(s: State)
    requires Initial(s) && |s.threads| > WRAP
    ensures AtMostOut(s, Draws(WRAP + 1) + [Spin(0)] + [Spin(WRAP)], WRAP + 1)
  {
    var n, draws := WRAP + 1, Draws(WRAP + 1);
    DrawsOut(s, n);
    AllDraw(s, n);
    var t := Run(s, draws);
    AtMostOutOne(t, Spin(0), n);
    AtMostOutAppends(s, draws, [Spin(0)], n);
    RunAppends(s, draws, [Spin(0)]);
    RunOne(t, Spin(0));
    AtMostOutOne(Step(t, Spin(0)), Spin(WRAP), n);
    AtMostOutAppends(s, draws + [Spin(0)], [Spin(WRAP)], n);
  }

  ghost function Threads(n: nat): (s: State)
    ensures Initial(s) && |s.threads| == n
  {
    State(0, 0, seq(n, _ => Outside), 0, 0, [])
  }

  /** The bound on outstanding tickets cannot be raised: runs are exclusive up to 2^32 tickets out and no further. */
  lemma SafeIffTicketsFit(bound: nat)
    ensures SafeUpTo(bound) <==> bound <= WRAP
  {
    if bound <= WRAP {
      forall s, actions | Initial(s) && AtMostOut(s, actions, bound) ensures Exclusive(Run(s, actions)) {
        MoreMayBeOut(s, actions, bound, WRAP);
        ExclusiveAndFair(s, actions);
      }
    } else {
      var s, actions := Threads(WRAP + 1), Draws(WRAP + 1) + [Spin(0)] + [Spin(WRAP)];
      TwoHolders(s);
      TwoHoldersOut(s);
      MoreMayBeOut(s, actions, WRAP + 1, bound);
    }
  }

  // ----- The class, one atomic step per method

  class SpinLock {
    var mOwner: nat
    var mNext: nat
    ghost var threads: seq<Thread>
    ghost var drawn: nat
    ghost var served: nat
    ghost var grants: seq<nat>

    ghost function View(): State
      reads this
    {
      State(mNext, mOwner, threads, drawn, served, grants)
    }

    constructor (threadCount: nat)
      ensures Initial(View()) && Inv(View()) && |threads| == threadCount
    {
      mOwner, mNext, drawn, served, grants := 0, 0, 0, 0, [];
      threads := seq(threadCount, _ => Outside);
    }

    /** The fetch_add of lock(). */
    method DrawTicket(i: nat) returns (ticket: nat)
      requires Inv(View()) && i < |threads| && threads[i].Outside?
      modifies this
      ensures View() == Step(old(View()), Draw(i)) && Inv(View())
      ensures threads[i] == Waiting(ticket, old(drawn))
    {
      StepKeepsInv(View(), Draw(i));
      ticket := mNext;
      mNext := (mNext + 1) % WRAP;
      threads, drawn := threads[i := Waiting(ticket, drawn)], drawn + 1;
    }

    /** One turn of lock()'s spin: it lets the caller in exactly when its ticket is the oldest one out. */
    method TryEnter(i: nat, ticket: nat) returns (entered: bool)
      requires Inv(View()) && drawn - served <= WRAP
      requires i < |threads| && threads[i].Waiting? && threads[i].ticket == ticket
      modifies this
      ensures View() == Step(old(View()), Spin(i)) && Inv(View())
      ensures entered <==> old(threads[i].order) == served
    {
      StepKeepsInv(View(), Spin(i));
      OnlyOldestMatches(View(), i);
      entered := ticket == mOwner;
      if entered {
        grants, threads := grants + [threads[i].order], threads[i := Holding(threads[i].order)];
      }
    }

    method Release(i: nat)
      requires Inv(View()) && i < |threads| && threads[i].Holding?
      modifies this
      ensures View() == Step(old(View()), Unlock(i)) && Inv(View())
    {
      StepKeepsInv(View(), Unlock(i));
      mOwner := (mOwner + 1) % WRAP;
      served, threads := served + 1, threads[i := Outside];
    }
  }
}
