/** PrestoLabs: the order loop of the normal rule over both books, the accounts and the trade log. */
module Exchange {
  import opened Common
  import opened Matching
  import opened Ledger
  import opened OrderBook

  // ----- What one match keeps

  /** In every scope, the book and the incoming order lose together what is traded. */
  lemma MatchConserves(side: Side, before: seq<Level>, incoming: Order, k: nat, queue: seq<Order>,
                       trades: seq<Trade>, left: nat, after: seq<Level>, scope: Scope)
    requires BookOk(side, before) && side == Opposite(incoming.side)
    requires Matches(side, before, incoming, k, queue, trades, left, after)
    ensures left <= incoming.leaves
    ensures LeavesOf(Flatten(after), scope) + Traded(trades, scope)
            == LeavesOf(Flatten(before), scope) + if Within(incoming, scope) then incoming.leaves - left else 0
  {
    var f := Fill(incoming, queue, incoming.leaves);
    QueueIsOnSide(side, before, incoming.price, k, queue);
    FillConserves(incoming, queue, incoming.leaves, scope);
    SumsOfPermutation(queue, Flatten(before[..k]), scope);
    FlattenSplit(before, k);
    SumsOfConcat(Flatten(before[..k]), Flatten(before[k..]), scope);
    SumsOfConcat(f.rest, Flatten(before[k..]), scope);
  }

  lemma {:induction false} InLevel(ls: seq<Level>, x: Order) returns (i: nat, j: nat)
    requires x in Flatten(ls)
    ensures i < |ls| && j < |ls[i].orders| && ls[i].orders[j] == x
  {
    if x in ls[0].orders {
      i, j := 0, 0;
      j :| 0 <= j < |ls[0].orders| && ls[0].orders[j] == x;
    } else {
      i, j := InLevel(ls[1..], x);
      i := i + 1;
    }
  }

  lemma PriceInBook(side: Side, ls: seq<Level>, x: Order) returns (i: nat)
    requires LevelsOk(side, ls) && x in Flatten(ls)
    ensures i < |ls| && ls[i].price == x.price
  {
    var j;
    i, j := InLevel(ls, x);
    assert OrderOk(side, ls[i].price, ls[i].orders[j]);
  }

  lemma QueueIsOnSide(side: Side, before: seq<Level>, price: nat, k: nat, queue: seq<Order>)
    requires BookOk(side, before) && IsQueue(side, before, price, k, queue)
    ensures AllOn(side, queue)
  {
    forall i | 0 <= i < |queue| ensures queue[i].side == side {
      assert queue[i] in multiset(queue);
      var n, j := InLevel(before[..k], queue[i]);
      assert OrderOk(side, before[n].price, before[n].orders[j]);
    }
  }

  lemma QueueHasLeaves(side: Side, before: seq<Level>, price: nat, k: nat, queue: seq<Order>)
    requires BookOk(side, before) && IsQueue(side, before, price, k, queue)
    ensures HaveLeaves(queue)
  {
    forall i | 0 <= i < |queue| ensures queue[i].leaves > 0 {
      assert queue[i] in multiset(queue);
      var n, j := InLevel(before[..k], queue[i]);
      assert OrderOk(side, before[n].price, before[n].orders[j]);
    }
  }

  lemma LaterLevelsAreWorse(side: Side, before: seq<Level>, k: nat, x: Order, y: Order)
    requires BookOk(side, before) && k <= |before|
    requires y in Flatten(before[..k]) && x in Flatten(before[k..])
    ensures !Ahead(side, x, y)
  {
    var n := PriceInBook(side, before[k..], x);
    var m := PriceInBook(side, before[..k], y);
    assert Better(side, before[m].price, before[k + n].price);
  }

  /** An order that comes before a queued one is queued too. */
  lemma AheadIsQueued(side: Side, before: seq<Level>, price: nat, k: nat, queue: seq<Order>, x: Order, j: nat)
    requires BookOk(side, before) && IsQueue(side, before, price, k, queue)
    requires x in Flatten(before) && j < |queue| && Ahead(side, x, queue[j])
    ensures x in queue
  {
    FlattenSplit(before, k);
    assert queue[j] in multiset(queue);
    if x in Flatten(before[k..]) { LaterLevelsAreWorse(side, before, k, x, queue[j]); }
    assert x in multiset(queue);
  }

  /**
   * Price-time priority: when the j-th queued order trades, every order of the book that comes before
   * it has a place in the queue and trades all it has.
   */
  lemma PriorityKept(side: Side, before: seq<Level>, incoming: Order, k: nat, queue: seq<Order>,
                     trades: seq<Trade>, left: nat, after: seq<Level>, x: Order, j: nat) returns (i: nat)
    requires BookOk(side, before) && Matches(side, before, incoming, k, queue, trades, left, after)
    requires j < |queue| && Share(queue, incoming.leaves, j) > 0
    requires x in Flatten(before) && Ahead(side, x, queue[j])
    ensures i < j && queue[i] == x && Share(queue, incoming.leaves, i) == x.leaves
  {
    AheadIsQueued(side, before, incoming.price, k, queue, x, j);
    i :| 0 <= i < |queue| && queue[i] == x;
    assert i != j by { if i == j { AheadIsStrict(side, x); } }
    EarlierIsFilledFirst(queue, incoming.leaves, i, j);
  }

  lemma AheadIsStrict(side: Side, x: Order)
    ensures !Ahead(side, x, x)
  {
  }

  /** A trade is at or below the buyer's limit and at or above the seller's. */
  lemma TradeIsWithinLimits(side: Side, before: seq<Level>, incoming: Order, k: nat, queue: seq<Order>,
                            trades: seq<Trade>, left: nat, after: seq<Level>, j: nat)
    requires BookOk(side, before) && side == Opposite(incoming.side) && incoming.leaves > 0
    requires Matches(side, before, incoming, k, queue, trades, left, after) && j < |trades|
    ensures j < |queue| && trades[j].makerSide == side && trades[j].price == queue[j].price
    ensures if incoming.side.Buy? then trades[j].price <= incoming.price else trades[j].price >= incoming.price
  {
    QueueHasLeaves(side, before, incoming.price, k, queue);
    FewTrades(incoming, queue, incoming.leaves);
    TradesAreShares(incoming, queue, incoming.leaves, j);
    QueueIsOnSide(side, before, incoming.price, k, queue);
    assert queue[j] in multiset(queue);
    var n := PriceInBook(side, before[..k], queue[j]);
    assert Crosses(side, incoming.price, before[..k][n].price);
  }

  // ----- The market as a whole

  datatype Market = Market(bids: seq<Level>, asks: seq<Level>, log: seq<Trade>, accounts: seq<Account>,
                           history: seq<Order>)

  function SideOf(m: Market, side: Side): seq<Level> { if side.Buy? then m.bids else m.asks }

  /** The book is not crossed: every bid is below every ask. */
  ghost predicate Uncrossed(bids: seq<Level>, asks: seq<Level>) {
    forall i, j :: 0 <= i < |bids| && 0 <= j < |asks| ==> bids[i].price < asks[j].price
  }

  function Submitted(os: seq<Order>, scope: Scope): nat {
    if os == [] then 0 else Submitted(os[..|os| - 1], scope) + if Within(os[|os| - 1], scope) then os[|os| - 1].qty else 0
  }

  /** Traded plus leaves is what was submitted. */
  ghost predicate AddsUp(m: Market, scope: Scope) {
    Traded(m.log, scope) + LeavesOf(Flatten(m.bids), scope) + LeavesOf(Flatten(m.asks), scope) == Submitted(m.history, scope)
  }

  ghost predicate MarketOk(m: Market) {
    && BookOk(Buy, m.bids) && BookOk(Sell, m.asks) && Uncrossed(m.bids, m.asks)
    && (forall scope: Scope :: AddsUp(m, scope))
    && m.accounts == PostAll([], m.log)
  }

  /** In every good market all accounts together bought what they sold: the traded volume. */
  lemma LongEqualsShort(m: Market)
    requires MarketOk(m)
    ensures Total(m.accounts, Buy) == Total(m.accounts, Sell) == Volume(m.log)
  {
    PostingBalances([], m.log, Buy, 0);
    PostingBalances([], m.log, Sell, 0);
  }

  /** A party holds on either side what its own orders on that side have lost of what they were submitted with. */
  lemma HoldsWhatItsOrdersLost(m: Market, side: Side, party: nat)
    requires MarketOk(m)
    ensures OneEach(m.accounts)
    ensures var own := OfParty(side, party);
            Held(m.accounts, side, party) + LeavesOf(Flatten(m.bids), own) + LeavesOf(Flatten(m.asks), own)
            == Submitted(m.history, own)
  {
    PostingBalances([], m.log, side, party);
    PostingKeepsOneEach([], m.log);
    assert AddsUp(m, OfParty(side, party));
  }

  lemma SubmittedOne(os: seq<Order>, o: Order, scope: Scope)
    ensures Submitted(os + [o], scope) == Submitted(os, scope) + if Within(o, scope) then o.qty else 0
  {
    assert (os + [o])[..|os|] == os;
  }

  /** Matching against the opposite book, and resting what is left, keeps every quantity. */
  lemma StepAddsUp(log: seq<Trade>, trades: seq<Trade>, history: seq<Order>, o: Order, left: nat,
                   own: nat, other: nat, other': nat, scope: Scope)
    requires left <= o.leaves == o.qty
    requires other' + Traded(trades, scope) == other + if Within(o, scope) then o.leaves - left else 0
    requires Traded(log, scope) + own + other == Submitted(history, scope)
    ensures Traded(log + trades, scope) + (own + if Within(o, scope) then left else 0) + other' == Submitted(history + [o], scope)
  {
    TradedConcat(log, trades, scope);
    SubmittedOne(history, o, scope);
  }

  lemma RestedLeaves(own: seq<Level>, own': seq<Level>, o: Order, scope: Scope)
    requires multiset(Flatten(own')) == multiset(Flatten(own)) + multiset{o}
    ensures LeavesOf(Flatten(own'), scope) == LeavesOf(Flatten(own), scope) + if Within(o, scope) then o.leaves else 0
  {
    var os := Flatten(own);
    SumsOfPermutation(Flatten(own'), os + [o], scope);
    SumsOfConcat(os, [o], scope);
    assert [o][1..] == [];
  }

  /** Every own price is on the right side of every price of the other book. */
  ghost predicate Apart(side: Side, own: seq<Level>, other: seq<Level>) {
    forall i, j :: 0 <= i < |own| && 0 <= j < |other| ==> Better(side, own[i].price, other[j].price)
  }

  lemma ApartAfterMatch(side: Side, own: seq<Level>, other: seq<Level>, other': seq<Level>)
    requires Apart(side, own, other) && PricesFrom(other', other)
    ensures Apart(side, own, other')
  {
    forall i, j | 0 <= i < |own| && 0 <= j < |other'| ensures Better(side, own[i].price, other'[j].price) {
      assert HasPrice(other, other'[j].price);
    }
  }

  lemma ApartAfterRest(side: Side, own: seq<Level>, own': seq<Level>, p: nat, other: seq<Level>)
    requires Apart(side, own, other) && PricesFromOr(own', own, p) && NoneCrosses(side, p, other)
    ensures Apart(side, own', other)
  {
    forall i, j | 0 <= i < |own'| && 0 <= j < |other| ensures Better(side, own'[i].price, other[j].price) {
      assert !Crosses(side, p, other[j].price);
    }
  }

  /** Nothing that still crosses is left behind, unless the book is exhausted. */
  lemma LeftoverCrossesNothing(side: Side, before: seq<Level>, o: Order, k: nat, queue: seq<Order>,
                               trades: seq<Trade>, left: nat, after: seq<Level>)
    requires BookOk(side, before) && Matches(side, before, o, k, queue, trades, left, after) && left > 0
    ensures NoneCrosses(side, o.price, after)
  {
    FillTakesFromQueue(o, queue, o.leaves);
    var rest := before[k..];
    PartOfBook(side, before, k);
    assert Flatten(after) == Flatten(rest) by { assert [] + Flatten(rest) == Flatten(rest); }
    forall i | 0 <= i < |after| ensures !Crosses(side, o.price, after[i].price) {
      var x := after[i].orders[0];
      OrdersOfLevel(after, i, 0);
      var n := PriceInBook(side, rest, x);
      assert OrderOk(side, after[i].price, x);
      assert !Crosses(side, o.price, rest[n].price);
    }
  }

  lemma {:induction false} OrdersOfLevel(ls: seq<Level>, i: nat, j: nat)
    requires i < |ls| && j < |ls[i].orders|
    ensures ls[i].orders[j] in Flatten(ls)
  {
    if i > 0 { OrdersOfLevel(ls[1..], i - 1, j); }
  }

  // ----- One order, and a stream of orders

  /** A freshly parsed order: all its quantity is left. */
  ghost predicate Fresh(o: Order) { o.leaves == o.qty < WORD && o.sequence < WORD }

  /** A book with one more order resting in it. */
  ghost predicate HasRested(side: Side, own: seq<Level>, own': seq<Level>, o: Order) {
    && BookOk(side, own') && PricesFromOr(own', own, o.price)
    && multiset(Flatten(own')) == multiset(Flatten(own)) + multiset{o}
  }

  /** One order matched against the other book, its remainder resting in its own. */
  ghost predicate Processed(m: Market, o: Order, m': Market, k: nat, queue: seq<Order>, trades: seq<Trade>, left: nat) {
    var other := Opposite(o.side);
    && Matches(other, SideOf(m, other), o, k, queue, trades, left, SideOf(m', other))
    && (if left == 0 then SideOf(m', o.side) == SideOf(m, o.side)
        else HasRested(o.side, SideOf(m, o.side), SideOf(m', o.side), o.(leaves := left)))
    && m'.log == m.log + trades && m'.history == m.history + [o]
    && m'.accounts == PostAll(m.accounts, trades)
  }

  lemma OwnBookAfter(m: Market, o: Order, m': Market, k: nat, queue: seq<Order>, trades: seq<Trade>, left: nat,
                     scope: Scope)
    requires Processed(m, o, m', k, queue, trades, left)
    ensures LeavesOf(Flatten(SideOf(m', o.side)), scope)
            == LeavesOf(Flatten(SideOf(m, o.side)), scope) + if Within(o, scope) then left else 0
  {
    if left > 0 { RestedLeaves(SideOf(m, o.side), SideOf(m', o.side), o.(leaves := left), scope); }
  }

  lemma OtherBookAfter(m: Market, o: Order, m': Market, k: nat, queue: seq<Order>, trades: seq<Trade>, left: nat,
                       scope: Scope)
    requires Processed(m, o, m', k, queue, trades, left) && BookOk(Buy, m.bids) && BookOk(Sell, m.asks)
    ensures var s := Opposite(o.side);
            && left <= o.leaves
            && LeavesOf(Flatten(SideOf(m', s)), scope) + Traded(trades, scope)
               == LeavesOf(Flatten(SideOf(m, s)), scope) + if Within(o, scope) then o.leaves - left else 0
  {
    var s := Opposite(o.side);
    assert BookOk(s, SideOf(m, s));
    MatchConserves(s, SideOf(m, s), o, k, queue, trades, left, SideOf(m', s), scope);
  }

  lemma ProcessedAddsUp(m: Market, o: Order, m': Market, k: nat, queue: seq<Order>, trades: seq<Trade>, left: nat,
                        scope: Scope)
    requires Processed(m, o, m', k, queue, trades, left) && AddsUp(m, scope) && Fresh(o)
    requires BookOk(Buy, m.bids) && BookOk(Sell, m.asks)
    ensures AddsUp(m', scope)
  {
    var own, other := SideOf(m, o.side), SideOf(m, Opposite(o.side));
    OwnBookAfter(m, o, m', k, queue, trades, left, scope);
    OtherBookAfter(m, o, m', k, queue, trades, left, scope);
    StepAddsUp(m.log, trades, m.history, o, left, LeavesOf(Flatten(own), scope), LeavesOf(Flatten(other), scope),
               LeavesOf(Flatten(SideOf(m', Opposite(o.side))), scope), scope);
  }

  lemma ApartIsUncrossed(m: Market, side: Side)
    ensures Uncrossed(m.bids, m.asks) <==> Apart(Opposite(side), SideOf(m, side), SideOf(m, Opposite(side)))
  {
  }

  lemma ProcessedStaysUncrossed(m: Market, o: Order, m': Market, k: nat, queue: seq<Order>, trades: seq<Trade>, left: nat)
    requires Processed(m, o, m', k, queue, trades, left) && Uncrossed(m.bids, m.asks)
    requires BookOk(Buy, m.bids) && BookOk(Sell, m.asks)
    ensures Uncrossed(m'.bids, m'.asks)
  {
    var s := Opposite(o.side);
    ApartIsUncrossed(m, o.side);
    ApartIsUncrossed(m', o.side);
    ApartAfterMatch(s, SideOf(m, o.side), SideOf(m, s), SideOf(m', s));
    if left > 0 {
      LeftoverCrossesNothing(s, SideOf(m, s), o, k, queue, trades, left, SideOf(m', s));
      ApartAfterRest(s, SideOf(m, o.side), SideOf(m', o.side), o.price, SideOf(m', s));
    }
  }

  /** Every order keeps the market good: sorted, uncrossed, every quantity accounted for. */
  lemma ProcessedKeepsMarket(m: Market, o: Order, m': Market, k: nat, queue: seq<Order>, trades: seq<Trade>, left: nat)
    requires MarketOk(m) && Fresh(o) && Processed(m, o, m', k, queue, trades, left)
    ensures MarketOk(m')
  {
    ProcessedStaysUncrossed(m, o, m', k, queue, trades, left);
    forall scope: Scope ensures AddsUp(m', scope) { ProcessedAddsUp(m, o, m', k, queue, trades, left, scope); }
    PostConcat([], m.log, trades);
  }

  /** The orders that the loop does not skip. */
  function NonZero(os: seq<Order>): seq<Order> {
    if os == [] then [] else NonZero(os[..|os| - 1]) + if os[|os| - 1].qty > 0 then [os[|os| - 1]] else []
  }

  lemma NonZeroTake(os: seq<Order>, n: nat)
    requires n < |os|
    ensures NonZero(os[..n + 1]) == NonZero(os[..n]) + if os[n].qty > 0 then [os[n]] else []
  {
    assert os[..n + 1][..n] == os[..n];
  }

  lemma HistoryGrows(history: seq<Order>, os: seq<Order>, n: nat)
    requires n < |os|
    ensures history + NonZero(os[..n + 1]) == history + NonZero(os[..n]) + if os[n].qty > 0 then [os[n]] else []
  {
    NonZeroTake(os, n);
    Associative(history, NonZero(os[..n]), if os[n].qty > 0 then [os[n]] else []);
  }

  lemma LongerStill(a: seq<Trade>, b: seq<Trade>, c: seq<Trade>)
    requires a <= b <= c
    ensures a <= c
  {
  }

  /** The order wants more than the whole opposite book has, at prices that all cross. */
  ghost predicate Exhausted(m: Market, o: Order) {
    o.qty > 0 && Exhausts(Opposite(o.side), SideOf(m, Opposite(o.side)), o)
  }

  /** One turn of the order loop: a zero order changes nothing, any other is processed without exhausting a book. */
  ghost predicate Turn(m: Market, o: Order, m': Market) {
    && !Exhausted(m, o)
    && if o.qty == 0 then m' == m
       else exists k, queue, trades, left :: Processed(m, o, m', k, queue, trades, left)
  }

  /** The markets before and after each turn, for the first |ms| - 1 orders. */
  ghost predicate Stream(ms: seq<Market>, os: seq<Order>) {
    && 0 < |ms| <= |os| + 1
    && forall i {:trigger ms[i]} :: 0 <= i < |ms| - 1 ==> Turn(ms[i], os[i], ms[i + 1])
  }

  ghost predicate AllFresh(os: seq<Order>) { forall i :: 0 <= i < |os| ==> Fresh(os[i]) }

  lemma TurnKeepsMarket(m: Market, o: Order, m': Market)
    requires MarketOk(m) && Fresh(o) && Turn(m, o, m')
    ensures MarketOk(m') && m.log <= m'.log
    ensures m'.history == m.history + if o.qty > 0 then [o] else []
  {
    if o.qty > 0 {
      var k, queue, trades, left :| Processed(m, o, m', k, queue, trades, left);
      ProcessedKeepsMarket(m, o, m', k, queue, trades, left);
    }
  }

  /**
   * After any number of turns the market is good: traded plus leaves is what was submitted in every scope, the
   * accounts balance, and the books are sorted and not crossed. The history is the orders not skipped.
   */
  lemma {:induction false} StreamKeepsMarket(ms: seq<Market>, os: seq<Order>, n: nat)
    requires Stream(ms, os) && AllFresh(os) && MarketOk(ms[0]) && n < |ms|
    ensures MarketOk(ms[n]) && ms[0].log <= ms[n].log
    ensures ms[n].history == ms[0].history + NonZero(os[..n])
  {
    if n > 0 {
      StreamKeepsMarket(ms, os, n - 1);
      assert Turn(ms[n - 1], os[n - 1], ms[n - 1 + 1]);
      TurnKeepsMarket(ms[n - 1], os[n - 1], ms[n]);
      HistoryGrows(ms[0].history, os, n - 1);
      LongerStill(ms[0].log, ms[n - 1].log, ms[n].log);
    }
  }

  datatype Result = Skipped | Matched(outcome: Outcome)

  class Exchange {
    const bids: Book
    const asks: Book
    const accounts: Accounts
    var log: seq<Trade>
    ghost var history: seq<Order>

    ghost function View(): Market
      reads this, bids, asks, accounts
    {
      Market(bids.levels, asks.levels, log, accounts.entries, history)
    }

    ghost predicate Valid()
      reads this, bids, asks, accounts
    {
      bids.side == Buy && asks.side == Sell && MarketOk(View())
    }

    constructor ()
      ensures Valid() && View() == Market([], [], [], [], [])
    {
      bids := new Book(Buy);
      asks := new Book(Sell);
      accounts := new Accounts();
      log, history := [], [];
    }

    /** One turn of the order loop. */
    method Process(o: Order)
      returns (r: Result, ghost k: nat, ghost queue: seq<Order>, ghost trades: seq<Trade>, ghost left: nat)
      requires Valid() && Fresh(o)
      modifies this, bids, asks, accounts
      ensures r == Skipped <==> o.qty == 0
      ensures r == Skipped ==> View() == old(View())
      ensures r == Matched(ReadsPastEnd) <==> Exhausted(old(View()), o)
      ensures r == Matched(Filled) || r == Matched(Rests) ==> Processed(old(View()), o, View(), k, queue, trades, left)
      ensures r == Matched(Filled) <==> o.qty > 0 && left == 0
      ensures r != Matched(ReadsPastEnd) ==> Turn(old(View()), o, View())
      ensures r != Matched(ReadsPastEnd) ==> Valid() && history == old(history) + if o.qty > 0 then [o] else []
    {
      ghost var m := View();
      k, queue, trades, left := 0, [], [], 0;
      if o.leaves == 0 { return Skipped, 0, [], [], 0; }
      var own, other := bids, asks;
      if o.side == Sell { own, other := asks, bids; }
      var outcome, l, ts;
      outcome, l, ts, k, queue := other.Match(o, accounts);
      log, r, trades, left := log + ts, Matched(outcome), ts, l;
      if outcome == ReadsPastEnd { return; }
      history := history + [o];
      if outcome == Rests {
        LeftoverIsPart(o, queue, l);
        own.AddOrder(o.(leaves := l));
      }
      assert Processed(m, o, View(), k, queue, trades, left);
      ProcessedKeepsMarket(m, o, View(), k, queue, trades, left);
    }

    /**
     * The order loop: turn after turn, to the end of the stream exactly when no order on the way exhausts the
     * opposite book, else up to the first that does.
     */
    method ProcessOrders(orders: seq<Order>) returns (n: nat, ghost markets: seq<Market>)
      requires Valid() && AllFresh(orders)
      modifies this, bids, asks, accounts
      ensures n <= |orders| && |markets| == n + 1
      ensures markets[0] == old(View()) && Stream(markets, orders)
      ensures forall i :: 0 <= i <= n ==> MarketOk(markets[i]) && markets[i].history == old(history) + NonZero(orders[..i])
      ensures n == |orders| ==> Valid() && View() == markets[n]
      ensures n < |orders| ==> Exhausted(markets[n], orders[n])
      ensures n == |orders| <==> forall i :: 0 <= i < |markets| && i < |orders| ==> !Exhausted(markets[i], orders[i])
    {
      n, markets := 0, [View()];
      while n < |orders|
        invariant n <= |orders| && |markets| == n + 1 && Valid() && View() == markets[n]
        invariant markets[0] == old(View()) && Stream(markets, orders)
      {
        var r, _, _, _, _ := Process(orders[n]);
        if r == Matched(ReadsPastEnd) { break; }
        StreamGrows(markets, orders, View());
        n, markets := n + 1, markets + [View()];
      }
      forall i | 0 <= i <= n
        ensures MarketOk(markets[i]) && markets[i].history == old(history) + NonZero(orders[..i])
      {
        StreamKeepsMarket(markets, orders, i);
      }
      NoneExhaustedBefore(markets, orders);
    }
  }

  lemma StreamGrows(ms: seq<Market>, os: seq<Order>, m: Market)
    requires Stream(ms, os) && |ms| <= |os| && Turn(ms[|ms| - 1], os[|ms| - 1], m)
    ensures Stream(ms + [m], os)
  {
    var longer := ms + [m];
    forall i | 0 <= i < |longer| - 1 ensures Turn(longer[i], os[i], longer[i + 1]) {
      assert longer[i] == ms[i] && longer[i + 1] == if i < |ms| - 1 then ms[i + 1] else m;
    }
  }

  lemma NoneExhaustedBefore(ms: seq<Market>, os: seq<Order>)
    requires Stream(ms, os)
    ensures forall i :: 0 <= i < |ms| - 1 ==> !Exhausted(ms[i], os[i])
  {
    forall i | 0 <= i < |ms| - 1 ensures !Exhausted(ms[i], os[i]) {
      assert Turn(ms[i], os[i], ms[i + 1]);
    }
  }

  lemma LeftoverIsPart(o: Order, queue: seq<Order>, left: nat)
    requires left == Fill(o, queue, o.leaves).left
    ensures left <= o.leaves
  {
    FillTakesFromQueue(o, queue, o.leaves);
  }
}
