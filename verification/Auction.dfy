/** PrestoLabs: the auction rule up to the choice of the target price. */
module Auction {
  import opened Common
  import opened Matching

  /** A price level: its key in the map and mTotalQty. */
  datatype Group = Group(price: nat, total: nat)

  /** What an order asks for; the parties do not matter for the price. */
  datatype Request = Request(side: Side, price: nat, qty: nat)

  /** A level of this side at price q takes part at price p: a bid of at least p, an offer of at most p. */
  predicate TakesPart(side: Side, p: nat, q: nat): (r: bool)
    ensures r <==> if side.Buy? then q >= p else q <= p
  {
    !Better(side, p, q)
  }

  /** All that one side wants at price p. */
  function Wanted(requests: seq<Request>, side: Side, p: nat): nat {
    if requests == [] then 0
    else var last := requests[|requests| - 1];
         Wanted(requests[..|requests| - 1], side, p)
         + if last.side == side && TakesPart(side, p, last.price) then last.qty else 0
  }

  /** The quantity that can change hands at price p. */
  function Crossed(requests: seq<Request>, p: nat): nat {
    Min(Wanted(requests, Buy, p), Wanted(requests, Sell, p))
  }

  /** The quantity bid for at price p or more. */
  function Demand(requests: seq<Request>, p: nat): nat {
    if requests == [] then 0
    else var last := requests[|requests| - 1];
         Demand(requests[..|requests| - 1], p) + if last.side == Buy && last.price >= p then last.qty else 0
  }

  /** The quantity offered at price p or less. */
  function Supply(requests: seq<Request>, p: nat): nat {
    if requests == [] then 0
    else var last := requests[|requests| - 1];
         Supply(requests[..|requests| - 1], p) + if last.side == Sell && last.price <= p then last.qty else 0
  }

  /** The lesser of the two changes hands. */
  lemma {:induction false} CrossedIsLesser(requests: seq<Request>, p: nat)
    ensures Wanted(requests, Buy, p) == Demand(requests, p) && Wanted(requests, Sell, p) == Supply(requests, p)
    ensures Crossed(requests, p) == Min(Demand(requests, p), Supply(requests, p))
  {
    if requests != [] { CrossedIsLesser(requests[..|requests| - 1], p); }
  }

  function Sum(gs: seq<Group>): nat { if gs == [] then 0 else gs[0].total + Sum(gs[1..]) }

  function TakingPart(gs: seq<Group>, side: Side, p: nat): nat {
    if gs == [] then 0
    else (if TakesPart(side, p, gs[0].price) then gs[0].total else 0) + TakingPart(gs[1..], side, p)
  }

  ghost predicate InOrder(side: Side, gs: seq<Group>) {
    forall i, j :: 0 <= i < j < |gs| ==> Better(side, gs[i].price, gs[j].price)
  }

  lemma {:induction false} SumConcat(a: seq<Group>, b: seq<Group>, side: Side, p: nat)
    ensures Sum(a + b) == Sum(a) + Sum(b)
    ensures TakingPart(a + b, side, p) == TakingPart(a, side, p) + TakingPart(b, side, p)
    decreases |a|
  {
    if a == [] {
      assert a + b == b;
    } else {
      assert (a + b)[1..] == a[1..] + b;
      SumConcat(a[1..], b, side, p);
    }
  }

  lemma {:induction false} AllOrNone(gs: seq<Group>, side: Side, p: nat)
    ensures (forall i :: 0 <= i < |gs| ==> TakesPart(side, p, gs[i].price)) ==> TakingPart(gs, side, p) == Sum(gs)
    ensures (forall i :: 0 <= i < |gs| ==> !TakesPart(side, p, gs[i].price)) ==> TakingPart(gs, side, p) == 0
  {
    if gs != [] { AllOrNone(gs[1..], side, p); }
  }

  /** In map order the levels that take part come first, and only they are summed. */
  lemma PrefixTakesPart(gs: seq<Group>, side: Side, p: nat, n: nat)
    requires InOrder(side, gs) && n <= |gs|
    requires n > 0 ==> TakesPart(side, p, gs[n - 1].price)
    requires n < |gs| ==> !TakesPart(side, p, gs[n].price)
    ensures TakingPart(gs, side, p) == Sum(gs[..n])
  {
    assert gs == gs[..n] + gs[n..];
    SumConcat(gs[..n], gs[n..], side, p);
    AllOrNone(gs[..n], side, p);
    AllOrNone(gs[n..], side, p);
  }

  lemma SumTake(gs: seq<Group>, n: nat)
    requires n < |gs|
    ensures Sum(gs[..n + 1]) == Sum(gs[..n]) + gs[n].total
  {
    assert gs[..n + 1] == gs[..n] + [gs[n]];
    SumConcat(gs[..n], [gs[n]], Buy, 0);
    assert [gs[n]][1..] == [];
  }

  /** Each level holds the running total up to itself. */
  ghost predicate Cumulated(gs: seq<Group>, sums: seq<Group>) {
    |sums| == |gs| && forall i :: 0 <= i < |gs| ==> sums[i] == Group(gs[i].price, Sum(gs[..i + 1]))
  }

  // ----- One side of the auction book

  /** The levels are in map order and hold, at every price, what the requests of this side want. */
  ghost predicate Holds(side: Side, gs: seq<Group>, requests: seq<Request>) {
    InOrder(side, gs) && forall p: nat :: TakingPart(gs, side, p) == Wanted(requests, side, p)
  }

  ghost predicate Asked(requests: seq<Request>, side: Side, p: nat) {
    exists i :: 0 <= i < |requests| && requests[i].side == side && requests[i].price == p
  }

  ghost predicate HasGroup(gs: seq<Group>, p: nat) { exists i :: 0 <= i < |gs| && gs[i].price == p }

  /** There is a level at exactly the prices of the requests. */
  ghost predicate SamePrices(side: Side, gs: seq<Group>, requests: seq<Request>) {
    forall p: nat :: HasGroup(gs, p) <==> Asked(requests, side, p)
  }

  lemma AskedOne(requests: seq<Request>, r: Request, side: Side, p: nat)
    ensures Asked(requests + [r], side, p) <==> Asked(requests, side, p) || (r.side == side && r.price == p)
  {
    var more := requests + [r];
    assert more[|requests|] == r;
    if Asked(requests, side, p) {
      var i :| 0 <= i < |requests| && requests[i].side == side && requests[i].price == p;
      assert more[i] == requests[i];
    }
  }

  /** A group replaced (m == 1) or put in (m == 0) at index i. */
  lemma PricesAround(gs: seq<Group>, g: Group, i: nat, m: nat, p: nat)
    requires m <= 1 && i + m <= |gs| && (m == 1 ==> g.price == gs[i].price)
    ensures HasGroup(gs[..i] + [g] + gs[i + m..], p) <==> HasGroup(gs, p) || g.price == p
  {
    var r := gs[..i] + [g] + gs[i + m..];
    assert r[i] == g;
    if HasGroup(gs, p) {
      var j :| 0 <= j < |gs| && gs[j].price == p;
      if j < i { assert r[j] == gs[j]; }
      if j >= i + m { assert r[j + 1 - m] == gs[j]; }
    }
    if HasGroup(r, p) {
      var j :| 0 <= j < |r| && r[j].price == p;
      if j < i { assert r[j] == gs[j]; }
      if j > i { assert r[j] == gs[j - 1 + m]; }
    }
  }

  lemma PricesAfter(side: Side, gs: seq<Group>, g: Group, i: nat, m: nat, requests: seq<Request>, r: Request)
    requires m <= 1 && i + m <= |gs| && (m == 1 ==> g.price == gs[i].price)
    requires SamePrices(side, gs, requests) && r.side == side && r.price == g.price
    ensures SamePrices(side, gs[..i] + [g] + gs[i + m..], requests + [r])
  {
    forall p: nat ensures HasGroup(gs[..i] + [g] + gs[i + m..], p) <==> Asked(requests + [r], side, p) {
      PricesAround(gs, g, i, m, p);
      AskedOne(requests, r, side, p);
    }
  }

  lemma WantedOne(requests: seq<Request>, r: Request, side: Side, p: nat)
    ensures Wanted(requests + [r], side, p)
            == Wanted(requests, side, p) + if r.side == side && TakesPart(side, p, r.price) then r.qty else 0
  {
    assert (requests + [r])[..|requests|] == requests;
  }

  /** A group replaced (m == 1) or put in (m == 0) at index i, with qty more than before. */
  lemma TakingPartAround(gs: seq<Group>, g: Group, i: nat, m: nat, qty: nat, side: Side, p: nat)
    requires m <= 1 && i + m <= |gs|
    requires g.total == (if m == 1 then gs[i].total else 0) + qty && (m == 1 ==> g.price == gs[i].price)
    ensures TakingPart(gs[..i] + [g] + gs[i + m..], side, p)
            == TakingPart(gs, side, p) + if TakesPart(side, p, g.price) then qty else 0
  {
    SumConcat(gs[..i] + [g], gs[i + m..], side, p);
    SumConcat(gs[..i], [g], side, p);
    SumConcat(gs[..i], gs[i..], side, p);
    assert gs == gs[..i] + gs[i..] && [g][1..] == [];
    if m == 1 { assert gs[i..][1..] == gs[i + 1..]; }
  }

  lemma InsertInOrder(side: Side, gs: seq<Group>, g: Group, i: nat)
    requires InOrder(side, gs) && i <= |gs|
    requires i > 0 ==> Better(side, gs[i - 1].price, g.price)
    requires i < |gs| ==> Better(side, g.price, gs[i].price)
    ensures InOrder(side, gs[..i] + [g] + gs[i..])
  {
    var r := gs[..i] + [g] + gs[i..];
    forall j, k | 0 <= j < k < |r| ensures Better(side, r[j].price, r[k].price) {
      assert r[j] == if j < i then gs[j] else if j == i then g else gs[j - 1];
      assert r[k] == if k < i then gs[k] else if k == i then g else gs[k - 1];
    }
  }

  class AuctionBook {
    const side: Side
    var groups: seq<Group>

    constructor (side: Side)
      ensures this.side == side && Holds(side, groups, []) && SamePrices(side, groups, [])
    {
      this.side := side;
      groups := [];
    }

    method AddOrder(r: Request, ghost requests: seq<Request>)
      requires Holds(side, groups, requests) && SamePrices(side, groups, requests) && r.side == side
      modifies this
      ensures Holds(side, groups, requests + [r]) && SamePrices(side, groups, requests + [r])
    {
      var i := 0;
      while i < |groups| && Better(side, groups[i].price, r.price)
        invariant 0 <= i <= |groups| && (i > 0 ==> Better(side, groups[i - 1].price, r.price))
      {
        i := i + 1;
      }
      ghost var before := groups;
      if i < |groups| && groups[i].price == r.price {
        PricesAfter(side, groups, Group(r.price, groups[i].total + r.qty), i, 1, requests, r);
        groups := groups[..i] + [Group(r.price, groups[i].total + r.qty)] + groups[i + 1..];
        forall p: nat ensures TakingPart(groups, side, p) == Wanted(requests + [r], side, p) {
          TakingPartAround(before, Group(r.price, before[i].total + r.qty), i, 1, r.qty, side, p);
          WantedOne(requests, r, side, p);
        }
      } else {
        InsertInOrder(side, groups, Group(r.price, r.qty), i);
        PricesAfter(side, groups, Group(r.price, r.qty), i, 0, requests, r);
        groups := groups[..i] + [Group(r.price, r.qty)] + groups[i..];
        forall p: nat ensures TakingPart(groups, side, p) == Wanted(requests + [r], side, p) {
          TakingPartAround(before, Group(r.price, r.qty), i, 0, r.qty, side, p);
          WantedOne(requests, r, side, p);
        }
      }
    }

    /** consolidateQty: every level's total becomes the total up to it. */
    method Consolidate()
      modifies this
      ensures Cumulated(old(groups), groups)
    {
      var sum := 0;
      ghost var before := groups;
      for i := 0 to |groups|
        invariant |groups| == |before| && sum == Sum(before[..i])
        invariant forall j :: 0 <= j < i ==> groups[j] == Group(before[j].price, Sum(before[..j + 1]))
        invariant forall j :: i <= j < |before| ==> groups[j] == before[j]
      {
        SumTake(before, i);
        var total := groups[i].total + sum;
        groups := groups[i := Group(groups[i].price, total)];
        sum := total;
      }
    }

    /** match with a quantity: what is left of it after taking what the levels up to a price hold. */
    method Match(qty: nat, price: nat, ghost before: seq<Group>) returns (left: nat)
      requires InOrder(side, before) && Cumulated(before, groups)
      ensures left == qty - Min(qty, TakingPart(before, side, price))
    {
      if groups == [] || Better(side, price, groups[0].price) {
        PrefixTakesPart(before, side, price, 0);
        return qty;
      }
      var i := 0;
      while i < |groups| && !Better(side, price, groups[i].price)
        invariant 0 <= i <= |groups| && (i > 0 ==> TakesPart(side, price, groups[i - 1].price))
      {
        i := i + 1;
      }
      PrefixTakesPart(before, side, price, i);
      left := qty - Min(qty, groups[i - 1].total);
    }
  }

  // ----- The target price

  /** Price times crossed quantity at the i-th buy level. */
  function VolumeAt(requests: seq<Request>, bids: seq<Group>, i: nat): nat
    requires i < |bids|
  {
    bids[i].price * Crossed(requests, bids[i].price)
  }

  /** The first, so highest-priced, of the levels up to n with the largest volume; 0 when that is 0. */
  ghost predicate IsTarget(requests: seq<Request>, bids: seq<Group>, n: nat, target: nat, max: nat)
    requires n <= |bids|
  {
    && (forall i :: 0 <= i < n ==> VolumeAt(requests, bids, i) <= max)
    && (if max == 0 then target == 0 else
          exists i :: 0 <= i < n && FirstWith(requests, bids, i, max) && target == bids[i].price)
  }

  ghost predicate FirstWith(requests: seq<Request>, bids: seq<Group>, i: nat, max: nat)
    requires i < |bids|
  {
    VolumeAt(requests, bids, i) == max && forall j :: 0 <= j < i ==> VolumeAt(requests, bids, j) < max
  }

  /** The loop over the buy levels that chooses the target price. */
  method ChooseTarget(buys: AuctionBook, sells: AuctionBook, ghost requests: seq<Request>,
                      ghost bids: seq<Group>, ghost offers: seq<Group>)
    returns (target: nat, max: nat)
    requires buys.side == Buy && sells.side == Sell
    requires Holds(Buy, bids, requests) && Holds(Sell, offers, requests)
    requires Cumulated(bids, buys.groups) && Cumulated(offers, sells.groups)
    ensures IsTarget(requests, bids, |bids|, target, max)
  {
    target, max := 0, 0;
    for n := 0 to |buys.groups|
      invariant IsTarget(requests, bids, n, target, max)
    {
      var price, total := buys.groups[n].price, buys.groups[n].total;
      var left := sells.Match(total, price, offers);
      PrefixTakesPart(bids, Buy, price, n + 1);
      var crossed := total - left;
      assert crossed == Crossed(requests, price);
      if price * crossed > max {
        target, max := price, price * crossed;
        assert FirstWith(requests, bids, n, max);
      }
    }
  }

  // ----- No price at all does better

  lemma {:induction false} MoreOffersHigher(requests: seq<Request>, p: nat, q: nat)
    requires p <= q
    ensures Wanted(requests, Sell, p) <= Wanted(requests, Sell, q)
    decreases |requests|
  {
    if requests != [] { MoreOffersHigher(requests[..|requests| - 1], p, q); }
  }

  /** The last of the first n levels that takes part at price p. */
  lemma {:induction false} LastTakingPart(bids: seq<Group>, p: nat, n: nat) returns (i: nat)
    requires InOrder(Buy, bids) && n <= |bids|
    requires forall j :: n <= j < |bids| ==> !TakesPart(Buy, p, bids[j].price)
    ensures i <= n && (i > 0 ==> TakesPart(Buy, p, bids[i - 1].price))
    ensures i < |bids| ==> !TakesPart(Buy, p, bids[i].price)
  {
    if n == 0 || TakesPart(Buy, p, bids[n - 1].price) {
      i := n;
    } else {
      i := LastTakingPart(bids, p, n - 1);
    }
  }

  lemma ProductsGrow(a: nat, b: nat, c: nat, d: nat)
    requires a <= b && c <= d
    ensures a * c <= b * d
  {
    assert a * c <= b * c <= b * d;
  }

  /** The chosen volume is the largest over all prices, not only over those of the bids. */
  lemma NoPriceDoesBetter(requests: seq<Request>, bids: seq<Group>, target: nat, max: nat, p: nat)
    requires Holds(Buy, bids, requests) && IsTarget(requests, bids, |bids|, target, max)
    ensures p * Crossed(requests, p) <= max
  {
    var i := LastTakingPart(bids, p, |bids|);
    PrefixTakesPart(bids, Buy, p, i);
    if i == 0 {
      assert bids[..0] == [];
      assert TakingPart(bids, Buy, p) == 0;
      assert Crossed(requests, p) == 0;
    } else {
      var q := bids[i - 1].price;
      PrefixTakesPart(bids, Buy, q, i);
      MoreOffersHigher(requests, p, q);
      ProductsGrow(p, q, Crossed(requests, p), Crossed(requests, q));
      assert VolumeAt(requests, bids, i - 1) <= max;
    }
  }

  /** Price times the lesser of what is bid for at that price or more and what is offered at it or less. */
  function Volume(requests: seq<Request>, p: nat): nat { p * Min(Demand(requests, p), Supply(requests, p)) }

  /** `max` is the largest volume over all prices, and `target` the highest bid that reaches it. */
  ghost predicate BestPrice(requests: seq<Request>, target: nat, max: nat) {
    && (forall p: nat :: Volume(requests, p) <= max)
    && if max == 0 then target == 0
       else && Volume(requests, target) == max && Asked(requests, Buy, target)
            && forall p: nat :: Asked(requests, Buy, p) && p > target ==> Volume(requests, p) < max
  }

  lemma HigherBidIsEarlier(bids: seq<Group>, i: nat, p: nat) returns (j: nat)
    requires InOrder(Buy, bids) && i < |bids| && HasGroup(bids, p) && p > bids[i].price
    ensures j < i && bids[j].price == p
  {
    j :| 0 <= j < |bids| && bids[j].price == p;
  }

  lemma TargetIsBest(requests: seq<Request>, bids: seq<Group>, target: nat, max: nat)
    requires Holds(Buy, bids, requests) && SamePrices(Buy, bids, requests)
    requires IsTarget(requests, bids, |bids|, target, max)
    ensures BestPrice(requests, target, max)
  {
    forall p: nat ensures Volume(requests, p) == p * Crossed(requests, p) <= max {
      CrossedIsLesser(requests, p);
      NoPriceDoesBetter(requests, bids, target, max, p);
    }
    if max > 0 {
      var i :| 0 <= i < |bids| && FirstWith(requests, bids, i, max) && target == bids[i].price;
      assert HasGroup(bids, target);
      forall p: nat | Asked(requests, Buy, p) && p > target ensures Volume(requests, p) < max {
        var j := HigherBidIsEarlier(bids, i, p);
        assert VolumeAt(requests, bids, j) < max;
      }
    }
  }

  // ----- From the orders to the price

  lemma OtherSideHolds(side: Side, gs: seq<Group>, requests: seq<Request>, r: Request)
    requires Holds(side, gs, requests) && SamePrices(side, gs, requests) && r.side != side
    ensures Holds(side, gs, requests + [r]) && SamePrices(side, gs, requests + [r])
  {
    forall p: nat ensures HasGroup(gs, p) <==> Asked(requests + [r], side, p) { AskedOne(requests, r, side, p); }
    forall p: nat ensures TakingPart(gs, side, p) == Wanted(requests + [r], side, p) {
      WantedOne(requests, r, side, p);
    }
  }

  /** ProcessAuctionOrders up to the price: sort the orders into the books, consolidate, choose. */
  method PriceAuction(requests: seq<Request>) returns (target: nat, max: nat, ghost bids: seq<Group>)
    ensures Holds(Buy, bids, requests) && IsTarget(requests, bids, |bids|, target, max)
    ensures BestPrice(requests, target, max)
  {
    var buys := new AuctionBook(Buy);
    var sells := new AuctionBook(Sell);
    for n := 0 to |requests|
      invariant buys.side == Buy && sells.side == Sell && buys != sells && fresh(buys) && fresh(sells)
      invariant Holds(Buy, buys.groups, requests[..n]) && Holds(Sell, sells.groups, requests[..n])
      invariant SamePrices(Buy, buys.groups, requests[..n]) && SamePrices(Sell, sells.groups, requests[..n])
    {
      var r := requests[n];
      assert requests[..n + 1] == requests[..n] + [r];
      if r.side == Buy {
        OtherSideHolds(Sell, sells.groups, requests[..n], r);
        buys.AddOrder(r, requests[..n]);
      } else {
        OtherSideHolds(Buy, buys.groups, requests[..n], r);
        sells.AddOrder(r, requests[..n]);
      }
    }
    assert requests[..|requests|] == requests;
    bids := buys.groups;
    ghost var offers := sells.groups;
    buys.Consolidate();
    sells.Consolidate();
    target, max := ChooseTarget(buys, sells, requests, bids, offers);
    TargetIsBest(requests, bids, target, max);
  }
}
