/** PrestoLabs: one side of the order book, and matching an incoming order against it. */
module OrderBook {
  import opened Common
  import opened Matching
  import opened Ledger

  // ----- Well-formed levels and books

  ghost predicate OrderOk(side: Side, price: nat, o: Order) {
    o.side == side && o.price == price && 0 < o.leaves <= o.qty < WORD && o.sequence < WORD
  }

  ghost predicate OrdersOk(side: Side, price: nat, os: seq<Order>) {
    forall i :: 0 <= i < |os| ==> OrderOk(side, price, os[i])
  }

  /** A level in the map has orders, and mLeavesQty is the sum over them. */
  ghost predicate LevelOk(side: Side, l: Level) {
    l.orders != [] && OrdersOk(side, l.price, l.orders) && l.leavesQty == SumLeaves(l.orders)
  }

  ghost predicate LevelsOk(side: Side, ls: seq<Level>) {
    forall i :: 0 <= i < |ls| ==> LevelOk(side, ls[i])
  }

  ghost predicate Ordered(side: Side, ls: seq<Level>) {
    forall i, j :: 0 <= i < j < |ls| ==> Better(side, ls[i].price, ls[j].price)
  }

  ghost predicate BookOk(side: Side, ls: seq<Level>) { LevelsOk(side, ls) && Ordered(side, ls) }

  /** OrderGroup::empty looks at the summed quantity only, which is right for these groups. */
  lemma EmptyIffNoOrders(side: Side, price: nat, os: seq<Order>)
    requires OrdersOk(side, price, os)
    ensures SumLeaves(os) == 0 <==> os == []
  {
    if os != [] { assert OrderOk(side, price, os[0]); }
  }

  // ----- Sorting a group

  ghost predicate KeysFall(os: seq<Order>) {
    forall i, j :: 0 <= i < j < |os| ==> Key(os[i]) >= Key(os[j])
  }

  method SortByKey(os: seq<Order>) returns (sorted: seq<Order>)
    ensures multiset(sorted) == multiset(os) && KeysFall(sorted)
  {
    sorted := [];
    for n := 0 to |os|
      invariant multiset(sorted) == multiset(os[..n]) && KeysFall(sorted)
    {
      assert os[..n + 1] == os[..n] + [os[n]];
      sorted := Insert(sorted, os[n]);
    }
    assert os[..|os|] == os;
  }

  method Insert(s: seq<Order>, o: Order) returns (sorted: seq<Order>)
    requires KeysFall(s)
    ensures multiset(sorted) == multiset(s) + multiset{o} && KeysFall(sorted)
  {
    var i := 0;
    while i < |s| && Key(s[i]) >= Key(o)
      invariant 0 <= i <= |s| && (i > 0 ==> Key(s[i - 1]) >= Key(o))
    {
      i := i + 1;
    }
    InsertKeepsKeysFalling(s, o, i);
    sorted := Inserted(s, o, i);
    assert s == s[..i] + s[i..];
  }

  function Inserted(s: seq<Order>, o: Order, i: nat): seq<Order>
    requires i <= |s|
  {
    s[..i] + [o] + s[i..]
  }

  lemma InsertedAt(s: seq<Order>, o: Order, i: nat, j: nat)
    requires i <= |s| && j <= |s|
    ensures Inserted(s, o, i)[j] == if j < i then s[j] else if j == i then o else s[j - 1]
  {
  }

  lemma InsertKeepsKeysFalling(s: seq<Order>, o: Order, i: nat)
    requires i <= |s| && KeysFall(s)
    requires i > 0 ==> Key(s[i - 1]) >= Key(o)
    requires i < |s| ==> Key(s[i]) <= Key(o)
    ensures KeysFall(Inserted(s, o, i))
  {
    var r := Inserted(s, o, i);
    forall j, k | 0 <= j < k < |r| ensures Key(r[j]) >= Key(r[k]) {
      InsertedAt(s, o, i, j);
      InsertedAt(s, o, i, k);
    }
  }

  /** A permutation of a group's orders by falling key is in priority order. */
  lemma SortedIsInPriority(side: Side, price: nat, os: seq<Order>, sorted: seq<Order>)
    requires OrdersOk(side, price, os) && multiset(sorted) == multiset(os) && KeysFall(sorted)
    ensures OrdersOk(side, price, sorted) && InPriority(side, sorted)
    ensures |sorted| == |os| && SumLeaves(sorted) == SumLeaves(os)
  {
    forall i | 0 <= i < |sorted| ensures OrderOk(side, price, sorted[i]) {
      assert sorted[i] in multiset(os);
    }
    SumsOfPermutation(sorted, os, OfOrder(0));
    assert |multiset(sorted)| == |multiset(os)|;
  }

  // ----- Matching against one group

  lemma {:induction false} FillKeepsOrdersOk(side: Side, price: nat, incoming: Order, os: seq<Order>, q: nat)
    requires OrdersOk(side, price, os)
    ensures OrdersOk(side, price, Fill(incoming, os, q).rest)
    decreases |os|
  {
    if q != 0 && os != [] && os[0].leaves <= q {
      FillKeepsOrdersOk(side, price, incoming, os[1..], q - os[0].leaves);
    } else if q != 0 && os != [] {
      assert OrderOk(side, price, os[0]);
    }
  }

  /** The filling of a queue whose first orders are done and whose other orders are still to come. */
  ghost predicate Underway(incoming: Order, queue: seq<Order>, q: nat, os: seq<Order>, trades: seq<Trade>, left: nat) {
    var f := Fill(incoming, os, left);
    Fill(incoming, queue, q) == Filling(f.rest, trades + f.trades, f.left)
  }

  /** The front of the queue after giving up some of its quantity; a filled order is erased. */
  function AfterCross(os: seq<Order>, cross: nat): seq<Order>
    requires os != [] && cross <= os[0].leaves
  {
    if os[0].leaves == cross then os[1..] else [os[0].(leaves := os[0].leaves - cross)] + os[1..]
  }

  lemma OneMoreFilled(incoming: Order, queue: seq<Order>, q: nat, os: seq<Order>, trades: seq<Trade>, left: nat)
    requires Underway(incoming, queue, q, os, trades, left)
    requires os != [] && 0 < left && os[0].leaves <= left
    ensures Underway(incoming, queue, q, os[1..], trades + [Cross(incoming, os[0], os[0].leaves)], left - os[0].leaves)
  {
    var f := Fill(incoming, os[1..], left - os[0].leaves);
    Associative(trades, [Cross(incoming, os[0], os[0].leaves)], f.trades);
  }

  lemma LastFilled(incoming: Order, queue: seq<Order>, q: nat, os: seq<Order>, trades: seq<Trade>, left: nat)
    requires Underway(incoming, queue, q, os, trades, left)
    requires os != [] && 0 < left < os[0].leaves
    ensures Underway(incoming, queue, q, AfterCross(os, left), trades + [Cross(incoming, os[0], left)], 0)
  {
    assert trades + [Cross(incoming, os[0], left)] + [] == trades + [Cross(incoming, os[0], left)];
  }

  lemma CrossFront(incoming: Order, queue: seq<Order>, q: nat, os: seq<Order>, trades: seq<Trade>, left: nat)
    requires Underway(incoming, queue, q, os, trades, left) && os != [] && 0 < left
    ensures var cross := Min(left, os[0].leaves);
            && Underway(incoming, queue, q, AfterCross(os, cross), trades + [Cross(incoming, os[0], cross)], left - cross)
            && SumLeaves(AfterCross(os, cross)) == SumLeaves(os) - cross
            && (left == cross || AfterCross(os, cross) == os[1..])
  {
    if os[0].leaves <= left {
      OneMoreFilled(incoming, queue, q, os, trades, left);
    } else {
      LastFilled(incoming, queue, q, os, trades, left);
    }
  }

  lemma Done(incoming: Order, queue: seq<Order>, q: nat, os: seq<Order>, trades: seq<Trade>, left: nat)
    requires Underway(incoming, queue, q, os, trades, left) && (left == 0 || os == [])
    ensures Fill(incoming, queue, q) == Filling(os, trades, left)
  {
    assert trades + [] == trades;
  }

  method PostTrade(accounts: Accounts, t: Trade, ghost before: seq<Account>, ghost ts: seq<Trade>)
    requires accounts.entries == PostAll(before, ts)
    modifies accounts
    ensures accounts.entries == PostAll(before, ts + [t])
  {
    accounts.Update(t.makerSide, t.makerParty, t.qty);
    accounts.Update(Opposite(t.makerSide), t.takerParty, t.qty);
    PostConcat(before, ts, [t]);
    PostOne(PostAll(before, ts), t);
  }

  /**
   * OrderGroup::match. The source's iterator never leaves the front: an order that is filled is erased, and one
   * that is not ends the loop.
   */
  method MatchGroup(side: Side, group: Level, incoming: Order, q: nat, accounts: Accounts)
    returns (rest: Level, trades: seq<Trade>, left: nat, ghost queue: seq<Order>)
    requires LevelOk(side, group) && q > 0
    modifies accounts
    ensures multiset(queue) == multiset(group.orders) && InPriority(side, queue)
    ensures OrdersOk(side, group.price, queue)
    ensures Fill(incoming, queue, q) == Filling(rest.orders, trades, left)
    ensures rest.price == group.price && rest.leavesQty == SumLeaves(rest.orders)
    ensures accounts.entries == PostAll(old(accounts.entries), trades)
  {
    var orders := SortByKey(group.orders);
    SortedIsInPriority(side, group.price, group.orders, orders);
    queue := orders;
    left := q;
    trades := [];
    var leavesQty := group.leavesQty;
    ghost var before := accounts.entries;
    while orders != []
      invariant left > 0 && Underway(incoming, queue, q, orders, trades, left)
      invariant leavesQty == SumLeaves(orders)
      invariant accounts.entries == PostAll(before, trades)
      decreases |orders|
    {
      var cross := Min(left, orders[0].leaves);
      var t := Cross(incoming, orders[0], cross);
      CrossFront(incoming, queue, q, orders, trades, left);
      PostTrade(accounts, t, before, trades);
      orders := AfterCross(orders, cross);
      trades := trades + [t];
      left := left - cross;
      leavesQty := leavesQty - cross;
      if left == 0 { break; }
    }
    Done(incoming, queue, q, orders, trades, left);
    rest := Level(group.price, orders, leavesQty);
  }

  // ----- Matching against the whole book

  ghost predicate AllCross(side: Side, price: nat, ls: seq<Level>) {
    forall i :: 0 <= i < |ls| ==> Crosses(side, price, ls[i].price)
  }

  ghost predicate NoneCrosses(side: Side, price: nat, ls: seq<Level>) {
    forall i :: 0 <= i < |ls| ==> !Crosses(side, price, ls[i].price)
  }

  /** Every order of the queue is at a better price than every level. */
  ghost predicate BetterThanLevels(side: Side, queue: seq<Order>, ls: seq<Level>) {
    forall i, j :: 0 <= i < |queue| && 0 <= j < |ls| ==> Better(side, queue[i].price, ls[j].price)
  }

  /** Each price of one book is a price of the other. */
  ghost predicate PricesFrom(after: seq<Level>, before: seq<Level>) {
    forall i :: 0 <= i < |after| ==> HasPrice(before, after[i].price)
  }

  ghost predicate HasPrice(ls: seq<Level>, price: nat) {
    exists j :: 0 <= j < |ls| && ls[j].price == price
  }

  /** `queue` holds the orders of the first k levels, which all cross, in priority order. */
  ghost predicate IsQueue(side: Side, before: seq<Level>, price: nat, k: nat, queue: seq<Order>) {
    && k <= |before| && AllCross(side, price, before[..k])
    && multiset(queue) == multiset(Flatten(before[..k])) && InPriority(side, queue)
  }

  /** What matching an incoming order does to a book: it fills the priority queue of the first k levels. */
  ghost predicate Matches(side: Side, before: seq<Level>, incoming: Order, k: nat, queue: seq<Order>,
                          trades: seq<Trade>, left: nat, after: seq<Level>)
  {
    var f := Fill(incoming, queue, incoming.leaves);
    && IsQueue(side, before, incoming.price, k, queue)
    && f.trades == trades && f.left == left
    && (left > 0 ==> NoneCrosses(side, incoming.price, before[k..]))
    && BookOk(side, after) && PricesFrom(after, before)
    && Flatten(after) == f.rest + Flatten(before[k..])
  }

  /** The incoming order wants more than the whole book has, at prices that all cross. */
  ghost predicate Exhausts(side: Side, before: seq<Level>, incoming: Order) {
    before != [] && AllCross(side, incoming.price, before) && SumLeaves(Flatten(before)) < incoming.leaves
  }

  /** Part way through: the first k levels are eaten up. */
  ghost predicate Eaten(side: Side, before: seq<Level>, incoming: Order, k: nat, queue: seq<Order>,
                        trades: seq<Trade>, left: nat)
  {
    && IsQueue(side, before, incoming.price, k, queue)
    && BetterThanLevels(side, queue, before[k..])
    && Fill(incoming, queue, incoming.leaves) == Filling([], trades, left)
  }

  lemma FlattenSplit(ls: seq<Level>, k: nat)
    requires k <= |ls|
    ensures Flatten(ls) == Flatten(ls[..k]) + Flatten(ls[k..])
    ensures k < |ls| ==> Flatten(ls[k..]) == ls[k].orders + Flatten(ls[k + 1..])
  {
    assert ls == ls[..k] + ls[k..];
    FlattenConcat(ls[..k], ls[k..]);
    if k < |ls| { assert ls[k..][1..] == ls[k + 1..]; }
  }

  lemma FlattenTake(ls: seq<Level>, k: nat)
    requires k < |ls|
    ensures Flatten(ls[..k + 1]) == Flatten(ls[..k]) + ls[k].orders
  {
    assert ls[..k + 1] == ls[..k] + [ls[k]];
    FlattenConcat(ls[..k], [ls[k]]);
    assert [ls[k]][1..] == [];
    assert ls[k].orders + [] == ls[k].orders;
  }

  lemma PriorityConcat(side: Side, a: seq<Order>, b: seq<Order>, price: nat)
    requires InPriority(side, a) && InPriority(side, b) && OrdersOk(side, price, b)
    requires forall i :: 0 <= i < |a| ==> Better(side, a[i].price, price)
    ensures InPriority(side, a + b)
  {
    var r := a + b;
    forall i, j | 0 <= i < j < |r| ensures !Ahead(side, r[j], r[i]) {
      if j >= |a| { assert OrderOk(side, price, b[j - |a|]); }
    }
  }

  lemma MultisetOfConcat(a: seq<Order>, b: seq<Order>, c: seq<Order>, d: seq<Order>)
    requires multiset(a) == multiset(c) && multiset(b) == multiset(d)
    ensures multiset(a + b) == multiset(c + d)
  {
  }

  /** The queue of k levels and the sorted next group make the queue of k + 1 levels. */
  lemma OneMoreLevel(side: Side, before: seq<Level>, price: nat, k: nat, queue: seq<Order>, next: seq<Order>)
    requires BookOk(side, before) && IsQueue(side, before, price, k, queue) && k < |before|
    requires BetterThanLevels(side, queue, before[k..]) && Crosses(side, price, before[k].price)
    requires multiset(next) == multiset(before[k].orders) && InPriority(side, next)
    requires OrdersOk(side, before[k].price, next)
    ensures IsQueue(side, before, price, k + 1, queue + next)
  {
    FlattenTake(before, k);
    assert before[k..][0] == before[k];
    PriorityConcat(side, queue, next, before[k].price);
    MultisetOfConcat(queue, next, Flatten(before[..k]), before[k].orders);
  }

  lemma StillBetter(side: Side, before: seq<Level>, k: nat, queue: seq<Order>, next: seq<Order>)
    requires Ordered(side, before) && k < |before| && BetterThanLevels(side, queue, before[k..])
    requires OrdersOk(side, before[k].price, next)
    ensures BetterThanLevels(side, queue + next, before[k + 1..])
  {
    var all, ls := queue + next, before[k + 1..];
    forall i, j | 0 <= i < |all| && 0 <= j < |ls| ensures Better(side, all[i].price, ls[j].price) {
      assert ls[j] == before[k + 1 + j] == before[k..][j + 1];
      if i >= |queue| { assert OrderOk(side, before[k].price, next[i - |queue|]); }
    }
  }

  /** The next group is eaten up as well. */
  lemma EatLevel(side: Side, before: seq<Level>, incoming: Order, k: nat, queue: seq<Order>, trades: seq<Trade>,
                 left: nat, next: seq<Order>, more: seq<Trade>, left': nat)
    requires BookOk(side, before) && Eaten(side, before, incoming, k, queue, trades, left)
    requires k < |before| && Crosses(side, incoming.price, before[k].price)
    requires multiset(next) == multiset(before[k].orders) && InPriority(side, next)
    requires OrdersOk(side, before[k].price, next)
    requires Fill(incoming, next, left) == Filling([], more, left')
    ensures Eaten(side, before, incoming, k + 1, queue + next, trades + more, left')
  {
    OneMoreLevel(side, before, incoming.price, k, queue, next);
    StillBetter(side, before, k, queue, next);
    FillConcat(incoming, queue, next, incoming.leaves);
  }

  lemma PartOfBook(side: Side, before: seq<Level>, k: nat)
    requires BookOk(side, before) && k <= |before|
    ensures BookOk(side, before[k..]) && PricesFrom(before[k..], before)
  {
    var ls := before[k..];
    forall i | 0 <= i < |ls| ensures LevelOk(side, ls[i]) && HasPrice(before, ls[i].price) {
      assert ls[i] == before[k + i];
    }
  }

  lemma ReplaceFirst(side: Side, ls: seq<Level>, l: Level)
    requires BookOk(side, ls) && ls != [] && LevelOk(side, l) && l.price == ls[0].price
    ensures BookOk(side, [l] + ls[1..]) && PricesFrom([l] + ls[1..], ls)
    ensures Flatten([l] + ls[1..]) == l.orders + Flatten(ls[1..])
  {
    var r := [l] + ls[1..];
    assert r[1..] == ls[1..];
    forall i | 0 <= i < |r| ensures LevelOk(side, r[i]) && r[i].price == ls[i].price && HasPrice(ls, r[i].price) {}
  }

  lemma PricesFromPart(after: seq<Level>, part: seq<Level>, before: seq<Level>)
    requires PricesFrom(after, part) && PricesFrom(part, before)
    ensures PricesFrom(after, before)
  {
    forall i | 0 <= i < |after| ensures HasPrice(before, after[i].price) {
      var j :| 0 <= j < |part| && part[j].price == after[i].price;
    }
  }

  /** The next group keeps some orders, and the incoming order is filled. */
  lemma BiteLevel(side: Side, before: seq<Level>, incoming: Order, k: nat, queue: seq<Order>, trades: seq<Trade>,
                  left: nat, next: seq<Order>, more: seq<Trade>, rest: Level)
    requires BookOk(side, before) && Eaten(side, before, incoming, k, queue, trades, left)
    requires k < |before| && Crosses(side, incoming.price, before[k].price)
    requires multiset(next) == multiset(before[k].orders) && InPriority(side, next)
    requires OrdersOk(side, before[k].price, next)
    requires LevelOk(side, rest) && rest.price == before[k].price
    requires Fill(incoming, next, left) == Filling(rest.orders, more, 0)
    ensures Matches(side, before, incoming, k + 1, queue + next, trades + more, 0, [rest] + before[k + 1..])
  {
    OneMoreLevel(side, before, incoming.price, k, queue, next);
    FillConcat(incoming, queue, next, incoming.leaves);
    PartOfBook(side, before, k);
    assert before[k..][1..] == before[k + 1..];
    ReplaceFirst(side, before[k..], rest);
    PricesFromPart([rest] + before[k + 1..], before[k..], before);
  }

  /** Stopping between two levels: filled, or the next level does not cross. */
  lemma StopBetween(side: Side, before: seq<Level>, incoming: Order, k: nat, queue: seq<Order>, trades: seq<Trade>,
                    left: nat)
    requires BookOk(side, before) && Eaten(side, before, incoming, k, queue, trades, left)
    requires left == 0 || k == |before| || !Crosses(side, incoming.price, before[k].price)
    ensures Matches(side, before, incoming, k, queue, trades, left, before[k..])
  {
    PartOfBook(side, before, k);
    assert [] + Flatten(before[k..]) == Flatten(before[k..]);
    if left > 0 {
      var ls := before[k..];
      forall i | 0 <= i < |ls| ensures !Crosses(side, incoming.price, ls[i].price) {
        assert ls[i] == before[k + i];
      }
    }
  }

  lemma TotalOfSplit(before: seq<Level>, k: nat, queue: seq<Order>)
    requires k <= |before| && multiset(queue) == multiset(Flatten(before[..k]))
    ensures SumLeaves(Flatten(before)) == SumLeaves(queue) + SumLeaves(Flatten(before[k..]))
  {
    SumsOfPermutation(queue, Flatten(before[..k]), OfOrder(0));
    FlattenSplit(before, k);
    SumsOfConcat(Flatten(before[..k]), Flatten(before[k..]), OfOrder(0));
  }

  /** The whole book is eaten up and the incoming order still wants more, exactly when it exhausts the book. */
  lemma ExhaustsIff(side: Side, before: seq<Level>, incoming: Order, k: nat, queue: seq<Order>, left: nat)
    requires before != [] && IsQueue(side, before, incoming.price, k, queue)
    requires left == Fill(incoming, queue, incoming.leaves).left
    requires left > 0 ==> NoneCrosses(side, incoming.price, before[k..])
    ensures Exhausts(side, before, incoming) <==> left > 0 && k == |before|
  {
    FillTakesFromQueue(incoming, queue, incoming.leaves);
    TotalOfSplit(before, k, queue);
    if k < |before| {
      assert before[k..][0] == before[k];
    } else {
      assert before[..k] == before && before[k..] == [];
    }
  }

  /** One resting and two wanted at the same price is enough, on either side and at any price. */
  lemma OneAgainstTwoExhausts(side: Side, price: nat)
    ensures var resting := Order(0, 0, side, price, 1, 0, 1);
            var incoming := Order(1, 1, Opposite(side), price, 2, 1, 2);
            var book := [Level(price, [resting], 1)];
            BookOk(side, book) && Exhausts(side, book, incoming)
  {
    var resting := Order(0, 0, side, price, 1, 0, 1);
    var book := [Level(price, [resting], 1)];
    assert book[1..] == [] && [resting][1..] == [] && [resting] + [] == [resting];
    assert SumLeaves([resting]) == 1;
    assert OrderOk(side, price, [resting][0]);
  }

  /** Before anything is matched. */
  lemma NothingEaten(side: Side, before: seq<Level>, incoming: Order)
    ensures Eaten(side, before, incoming, 0, [], [], incoming.leaves)
  {
    assert before[..0] == [];
  }

  /** After a group: it is eaten up, or it keeps some orders and the incoming order is filled. */
  ghost predicate EatenOrFilled(side: Side, before: seq<Level>, incoming: Order, k: nat, queue: seq<Order>,
                                trades: seq<Trade>, left: nat, levels: seq<Level>)
  {
    || (k <= |before| && levels == before[k..] && Eaten(side, before, incoming, k, queue, trades, left))
    || (left == 0 && Matches(side, before, incoming, k, queue, trades, left, levels))
  }

  lemma AfterGroup(side: Side, before: seq<Level>, incoming: Order, k: nat, queue: seq<Order>, trades: seq<Trade>,
                   left: nat, next: seq<Order>, more: seq<Trade>, left': nat, rest: Level)
    requires BookOk(side, before) && Eaten(side, before, incoming, k, queue, trades, left)
    requires k < |before| && Crosses(side, incoming.price, before[k].price)
    requires multiset(next) == multiset(before[k].orders) && InPriority(side, next)
    requires OrdersOk(side, before[k].price, next)
    requires Fill(incoming, next, left) == Filling(rest.orders, more, left')
    requires rest.price == before[k].price && rest.leavesQty == SumLeaves(rest.orders)
    ensures EatenOrFilled(side, before, incoming, k + 1, queue + next, trades + more, left',
                          if rest.leavesQty == 0 then before[k + 1..] else [rest] + before[k + 1..])
  {
    FillKeepsOrdersOk(side, before[k].price, incoming, next, left);
    EmptyIffNoOrders(side, before[k].price, rest.orders);
    FillTakesFromQueue(incoming, next, left);
    if rest.leavesQty == 0 {
      EatLevel(side, before, incoming, k, queue, trades, left, next, more, left');
    } else {
      BiteLevel(side, before, incoming, k, queue, trades, left, next, more, rest);
    }
  }

  /** Where the search of the book ends. */
  lemma MatchEnds(side: Side, before: seq<Level>, incoming: Order, k: nat, queue: seq<Order>, trades: seq<Trade>,
                  left: nat, levels: seq<Level>)
    requires BookOk(side, before) && EatenOrFilled(side, before, incoming, k, queue, trades, left, levels)
    requires left == 0 || k == |before| || (k < |before| && !Crosses(side, incoming.price, before[k].price))
    ensures Matches(side, before, incoming, k, queue, trades, left, levels)
    ensures before != [] ==> (Exhausts(side, before, incoming) <==> left > 0 && k == |before|)
  {
    if k <= |before| && levels == before[k..] && Eaten(side, before, incoming, k, queue, trades, left) {
      StopBetween(side, before, incoming, k, queue, trades, left);
    }
    if before != [] { ExhaustsIff(side, before, incoming, k, queue, left); }
  }

  // ----- Resting an order

  /** The group after push_back. */
  function WithOrder(l: Level, o: Order): Level {
    Level(l.price, l.orders + [o], l.leavesQty + o.leaves)
  }

  lemma WithOrderIsOk(side: Side, l: Level, o: Order)
    requires OrdersOk(side, l.price, l.orders) && l.leavesQty == SumLeaves(l.orders) && OrderOk(side, l.price, o)
    ensures LevelOk(side, WithOrder(l, o))
  {
    SumsOfConcat(l.orders, [o], OfOrder(0));
    assert [o][1..] == [];
  }

  /** A new level goes between better and worse ones. */
  lemma InsertLevel(side: Side, ls: seq<Level>, l: Level, i: nat)
    requires BookOk(side, ls) && LevelOk(side, l) && i <= |ls|
    requires i > 0 ==> Better(side, ls[i - 1].price, l.price)
    requires i < |ls| ==> Better(side, l.price, ls[i].price)
    ensures BookOk(side, ls[..i] + [l] + ls[i..])
  {
    var r := ls[..i] + [l] + ls[i..];
    forall j | 0 <= j < |r| ensures LevelOk(side, r[j]) {
      assert r[j] == if j < i then ls[j] else if j == i then l else ls[j - 1];
    }
    forall j, k | 0 <= j < k < |r| ensures Better(side, r[j].price, r[k].price) {
      assert r[j] == if j < i then ls[j] else if j == i then l else ls[j - 1];
      assert r[k] == if k < i then ls[k] else if k == i then l else ls[k - 1];
    }
  }

  lemma ReplaceLevel(side: Side, ls: seq<Level>, l: Level, i: nat)
    requires BookOk(side, ls) && LevelOk(side, l) && i < |ls| && l.price == ls[i].price
    ensures BookOk(side, ls[..i] + [l] + ls[i + 1..])
  {
    var r := ls[..i] + [l] + ls[i + 1..];
    forall j | 0 <= j < |r| ensures LevelOk(side, r[j]) && r[j].price == ls[j].price {
      assert r[j] == if j == i then l else ls[j];
    }
  }

  lemma FlattenAround(a: seq<Level>, l: Level, b: seq<Level>)
    ensures Flatten(a + [l] + b) == Flatten(a) + l.orders + Flatten(b)
  {
    FlattenConcat(a + [l], b);
    FlattenConcat(a, [l]);
    assert [l][1..] == [] && l.orders + [] == l.orders;
  }

  /** One order more among the others, for a level that is there. */
  lemma FlattenWithOrder(ls: seq<Level>, o: Order, i: nat)
    requires i < |ls|
    ensures multiset(Flatten(ls[..i] + [WithOrder(ls[i], o)] + ls[i + 1..])) == multiset(Flatten(ls)) + multiset{o}
  {
    FlattenSplit(ls, i);
    FlattenAround(ls[..i], WithOrder(ls[i], o), ls[i + 1..]);
    OneMoreInside(Flatten(ls[..i]), ls[i].orders, o, Flatten(ls[i + 1..]));
  }

  lemma OneMoreInside(a: seq<Order>, b: seq<Order>, o: Order, c: seq<Order>)
    ensures multiset(a + (b + [o]) + c) == multiset(a + (b + c)) + multiset{o}
  {
  }

  /** One order more among the others, for a new level. */
  lemma FlattenNewLevel(ls: seq<Level>, l: Level, o: Order, i: nat)
    requires i <= |ls| && l.orders == [o]
    ensures multiset(Flatten(ls[..i] + [l] + ls[i..])) == multiset(Flatten(ls)) + multiset{o}
  {
    FlattenAround(ls[..i], l, ls[i..]);
    FlattenSplit(ls, i);
  }

  /** Each price of one book is a price of the other, or the price p. */
  ghost predicate PricesFromOr(after: seq<Level>, before: seq<Level>, p: nat) {
    forall i :: 0 <= i < |after| ==> after[i].price == p || HasPrice(before, after[i].price)
  }

  lemma PricesAround(ls: seq<Level>, l: Level, i: nat, j: nat)
    requires i <= j <= |ls|
    ensures PricesFromOr(ls[..i] + [l] + ls[j..], ls, l.price)
  {
    var r := ls[..i] + [l] + ls[j..];
    forall n | 0 <= n < |r| ensures r[n].price == l.price || HasPrice(ls, r[n].price) {
      if n < i { assert r[n] == ls[n]; }
      if n > i { assert r[n] == ls[j + n - i - 1]; }
    }
  }

  // ----- The book

  datatype Outcome = Filled | Rests | ReadsPastEnd

  class Book {
    const side: Side
    var levels: seq<Level>

    constructor (side: Side)
      ensures this.side == side && levels == []
    {
      this.side := side;
      levels := [];
    }

    method Match(incoming: Order, accounts: Accounts)
      returns (outcome: Outcome, left: nat, trades: seq<Trade>, ghost k: nat, ghost queue: seq<Order>)
      requires BookOk(side, levels) && incoming.leaves > 0
      modifies `levels, accounts
      ensures Matches(side, old(levels), incoming, k, queue, trades, left, levels)
      ensures outcome.ReadsPastEnd? <==> Exhausts(side, old(levels), incoming)
      ensures outcome.Filled? <==> left == 0
      ensures accounts.entries == PostAll(old(accounts.entries), trades)
    {
      ghost var before, entries := levels, accounts.entries;
      k, queue, left, trades := 0, [], incoming.leaves, [];
      NothingEaten(side, before, incoming);
      outcome := Rests;
      if levels == [] || Better(side, incoming.price, levels[0].price) {
        MatchEnds(side, before, incoming, 0, [], [], left, levels);
        return;
      }
      while true
        invariant k < |before| && levels == before[k..] && left > 0 && outcome == Rests
        invariant Crosses(side, incoming.price, before[k].price)
        invariant Eaten(side, before, incoming, k, queue, trades, left)
        invariant accounts.entries == PostAll(entries, trades)
        decreases |levels|
      {
        var more, left', next := TakeBest(incoming, left, accounts, before, k, queue, trades);
        PostConcat(entries, trades, more);
        k, queue, trades, left := k + 1, queue + next, trades + more, left';
        if left == 0 {
          outcome := Filled;
          break;
        }
        if levels == [] {                                    // the next group's price is read here
          outcome := ReadsPastEnd;
          break;
        }
        assert levels[0] == before[k];
        if Better(side, incoming.price, levels[0].price) { break; }
      }
      MatchEnds(side, before, incoming, k, queue, trades, left, levels);
    }

    /** One turn of the loop: the incoming order against the best group, which is erased when nothing is left of it. */
    method TakeBest(incoming: Order, left: nat, accounts: Accounts, ghost before: seq<Level>, ghost k: nat,
                    ghost queue: seq<Order>, ghost trades: seq<Trade>)
      returns (more: seq<Trade>, left': nat, ghost next: seq<Order>)
      requires BookOk(side, before) && k < |before| && levels == before[k..] && left > 0
      requires Crosses(side, incoming.price, before[k].price)
      requires Eaten(side, before, incoming, k, queue, trades, left)
      modifies `levels, accounts
      ensures EatenOrFilled(side, before, incoming, k + 1, queue + next, trades + more, left', levels)
      ensures accounts.entries == PostAll(old(accounts.entries), more)
    {
      assert levels[0] == before[k] && levels[1..] == before[k + 1..];
      var rest;
      rest, more, left', next := MatchGroup(side, levels[0], incoming, left, accounts);
      AfterGroup(side, before, incoming, k, queue, trades, left, next, more, left', rest);
      levels := if rest.leavesQty == 0 then levels[1..] else [rest] + levels[1..];
    }

    method AddOrder(o: Order)
      requires BookOk(side, levels) && OrderOk(side, o.price, o)
      modifies `levels
      ensures BookOk(side, levels) && multiset(Flatten(levels)) == multiset(Flatten(old(levels))) + multiset{o}
      ensures PricesFromOr(levels, old(levels), o.price)
    {
      var i := 0;
      while i < |levels| && Better(side, levels[i].price, o.price)
        invariant 0 <= i <= |levels| && (i > 0 ==> Better(side, levels[i - 1].price, o.price))
      {
        i := i + 1;
      }
      if i < |levels| && levels[i].price == o.price {
        var l := WithOrder(levels[i], o);
        WithOrderIsOk(side, levels[i], o);
        ReplaceLevel(side, levels, l, i);
        FlattenWithOrder(levels, o, i);
        PricesAround(levels, l, i, i + 1);
        levels := levels[..i] + [l] + levels[i + 1..];
      } else {
        var l := WithOrder(Level(o.price, [], 0), o);
        WithOrderIsOk(side, Level(o.price, [], 0), o);
        InsertLevel(side, levels, l, i);
        FlattenNewLevel(levels, l, o, i);
        PricesAround(levels, l, i, i);
        levels := levels[..i] + [l] + levels[i..];
      }
    }
  }
}
