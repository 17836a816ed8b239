/** PrestoLabs: price-time matching of a stream of orders against two books. */
module Matching {
  import opened Common

  const WORD: nat := 0x1_0000_0000                 // quantities and sequences are 32 bits wide

  datatype Side = Buy | Sell

  /** An order entry; `leaves` is Info.LeavesQty, `qty` the quantity it came with. */
  datatype Order =
    Order(id: nat, party: nat, side: Side, price: nat, qty: nat, sequence: nat, leaves: nat)

  /** An order group: its price, its orders and mLeavesQty. Only the auction reads mTotalQty. */
  datatype Level = Level(price: nat, orders: seq<Order>, leavesQty: nat)

  /** One cross of an incoming order (the taker) with a resting one, at the resting price. */
  datatype Trade =
    Trade(taker: nat, maker: nat, takerParty: nat, makerParty: nat, makerSide: Side, qty: nat, price: nat)

  function Opposite(side: Side): Side { if side.Buy? then Sell else Buy }

  /** The 64-bit sort key: the complemented sequence above the remaining quantity. */
  function Key(o: Order): int { o.leaves + WORD * (WORD - 1 - o.sequence) }

  /** The map's key order: a buy book starts with its highest price, a sell book with its lowest. */
  predicate Better(side: Side, p: nat, q: nat) { if side.Buy? then p > q else p < q }

  /** An incoming order at price p can trade with a level of this side at price q. */
  predicate Crosses(side: Side, p: nat, q: nat): (r: bool)
    ensures r <==> if side.Buy? then p <= q else q <= p
  {
    !Better(side, p, q)
  }

  /** x comes before y: a better price, or the same price and a larger key. */
  predicate Ahead(side: Side, x: Order, y: Order) {
    Better(side, x.price, y.price) || (x.price == y.price && Key(x) > Key(y))
  }

  /** At one price, the key order is time order; the quantity only decides between equal times. */
  lemma AheadIsEarlier(side: Side, x: Order, y: Order)
    requires x.leaves < WORD && y.leaves < WORD && x.price == y.price
    ensures Ahead(side, x, y)
            <==> x.sequence < y.sequence || (x.sequence == y.sequence && x.leaves > y.leaves)
  {
    if x.sequence < y.sequence {
      assert WORD * (WORD - 1 - x.sequence) >= WORD * (WORD - 1 - y.sequence) + WORD;
    } else if x.sequence > y.sequence {
      assert WORD * (WORD - 1 - y.sequence) >= WORD * (WORD - 1 - x.sequence) + WORD;
    }
  }

  ghost predicate InPriority(side: Side, os: seq<Order>) {
    forall i, j :: 0 <= i < j < |os| ==> !Ahead(side, os[j], os[i])
  }

  // ----- Sums over orders and trades

  function SumLeaves(os: seq<Order>): nat {
    if os == [] then 0 else os[0].leaves + SumLeaves(os[1..])
  }

  /** Quantities are added up for the orders with one id, or for all orders of one party on one side. */
  datatype Scope = OfOrder(id: nat) | OfParty(side: Side, party: nat)

  predicate Within(o: Order, scope: Scope) {
    match scope
    case OfOrder(id) => o.id == id
    case OfParty(side, party) => o.side == side && o.party == party
  }

  /** The quantity that the orders in scope still have. */
  function LeavesOf(os: seq<Order>, scope: Scope): nat {
    if os == [] then 0 else (if Within(os[0], scope) then os[0].leaves else 0) + LeavesOf(os[1..], scope)
  }

  /** What a trade gives the orders in scope; the taker is on the side opposite to the maker's. */
  function TradedBy(t: Trade, scope: Scope): nat {
    match scope
    case OfOrder(id) => (if t.taker == id then t.qty else 0) + (if t.maker == id then t.qty else 0)
    case OfParty(side, party) =>
      if side == t.makerSide then (if t.makerParty == party then t.qty else 0)
      else (if t.takerParty == party then t.qty else 0)
  }

  /** The quantity that the orders in scope have traded. */
  function Traded(ts: seq<Trade>, scope: Scope): nat {
    if ts == [] then 0 else TradedBy(ts[0], scope) + Traded(ts[1..], scope)
  }

  function Flatten(ls: seq<Level>): seq<Order> {
    if ls == [] then [] else ls[0].orders + Flatten(ls[1..])
  }

  lemma {:induction false} SumsOfConcat(a: seq<Order>, b: seq<Order>, scope: Scope)
    ensures SumLeaves(a + b) == SumLeaves(a) + SumLeaves(b)
    ensures LeavesOf(a + b, scope) == LeavesOf(a, scope) + LeavesOf(b, scope)
    decreases |a|
  {
    if a == [] {
      assert a + b == b;
    } else {
      assert (a + b)[1..] == a[1..] + b;
      SumsOfConcat(a[1..], b, scope);
    }
  }

  lemma {:induction false} TradedConcat(a: seq<Trade>, b: seq<Trade>, scope: Scope)
    ensures Traded(a + b, scope) == Traded(a, scope) + Traded(b, scope)
    decreases |a|
  {
    if a == [] {
      assert a + b == b;
    } else {
      assert (a + b)[1..] == a[1..] + b;
      TradedConcat(a[1..], b, scope);
    }
  }

  lemma {:induction false} FlattenConcat(a: seq<Level>, b: seq<Level>)
    ensures Flatten(a + b) == Flatten(a) + Flatten(b)
    decreases |a|
  {
    if a == [] {
      assert a + b == b;
    } else {
      assert (a + b)[1..] == a[1..] + b;
      FlattenConcat(a[1..], b);
    }
  }

  /** Quantities do not depend on the order of the queue. */
  lemma {:induction false} SumsOfPermutation(a: seq<Order>, b: seq<Order>, scope: Scope)
    requires multiset(a) == multiset(b)
    ensures SumLeaves(a) == SumLeaves(b) && LeavesOf(a, scope) == LeavesOf(b, scope)
    decreases |a|
  {
    assert |multiset(a)| == |a| && |multiset(b)| == |b|;
    if a != [] {
      assert a[0] in multiset(b);
      var i :| 0 <= i < |b| && b[i] == a[0];
      RemoveOne(a, b, i);
      SumsOfPermutation(a[1..], b[..i] + b[i + 1..], scope);
      SumsOfConcat(b[..i], b[i + 1..], scope);
      SumsOfConcat(b[..i], b[i..], scope);
      assert b == b[..i] + b[i..] && b[i..][1..] == b[i + 1..];
    }
  }

  lemma RemoveOne(a: seq<Order>, b: seq<Order>, i: nat)
    requires a != [] && i < |b| && b[i] == a[0] && multiset(a) == multiset(b)
    ensures multiset(a[1..]) == multiset(b[..i] + b[i + 1..])
  {
    assert a == [a[0]] + a[1..];
    assert b == b[..i] + ([b[i]] + b[i + 1..]);
    assert multiset(a[1..]) == multiset(a) - multiset{a[0]};
    assert multiset(b[..i] + b[i + 1..]) == multiset(b) - multiset{b[i]};
  }

  // ----- Filling a queue of resting orders in turn: what matching means

  datatype Filling = Filling(rest: seq<Order>, trades: seq<Trade>, left: nat)

  function Cross(incoming: Order, o: Order, qty: nat): Trade {
    Trade(incoming.id, o.id, incoming.party, o.party, o.side, qty, o.price)
  }

  function Fill(incoming: Order, os: seq<Order>, q: nat): Filling
    decreases |os|
  {
    if q == 0 || os == [] then Filling(os, [], q)
    else if os[0].leaves <= q then
      var f := Fill(incoming, os[1..], q - os[0].leaves);
      Filling(f.rest, [Cross(incoming, os[0], os[0].leaves)] + f.trades, f.left)
    else
      Filling([os[0].(leaves := os[0].leaves - q)] + os[1..], [Cross(incoming, os[0], q)], 0)
  }

  /** How much the j-th order of the queue trades: what the earlier ones leave of q, at most its own. */
  function Share(os: seq<Order>, q: nat, j: nat): nat
    requires j < |os|
  {
    var earlier := SumLeaves(os[..j]);
    if q <= earlier then 0 else Min(os[j].leaves, q - earlier)
  }

  lemma {:induction false} SumOfPrefix(os: seq<Order>, i: nat, j: nat)
    requires i < j <= |os|
    ensures SumLeaves(os[..i]) + os[i].leaves <= SumLeaves(os[..j])
  {
    var mid, last := os[..j][i..], os[..i];
    assert os[..j] == last + mid && mid[0] == os[i];
    SumsOfConcat(last, mid, OfOrder(0));
  }

  /** A later order gets something only when every earlier one is filled. */
  lemma EarlierIsFilledFirst(os: seq<Order>, q: nat, i: nat, j: nat)
    requires i < j < |os| && Share(os, q, j) > 0
    ensures Share(os, q, i) == os[i].leaves
  {
    SumOfPrefix(os, i, j);
  }

  lemma SharesOfTail(os: seq<Order>, q: nat, j: nat)
    requires 0 < j < |os| && os[0].leaves <= q
    ensures Share(os, q, j) == Share(os[1..], q - os[0].leaves, j - 1)
  {
    assert os[..j][1..] == os[1..][..j - 1];
  }

  ghost predicate HaveLeaves(os: seq<Order>) { forall i :: 0 <= i < |os| ==> os[i].leaves > 0 }

  /** The trades of a filling are exactly the positive shares, in queue order, each between the two orders it names. */
  lemma {:induction false} TradesAreShares(incoming: Order, os: seq<Order>, q: nat, j: nat)
    requires j < |os| && HaveLeaves(os)
    ensures var ts := Fill(incoming, os, q).trades;
            && |ts| <= |os| && (j < |ts| <==> Share(os, q, j) > 0)
            && (j < |ts| ==> && ts[j].taker == incoming.id && ts[j].takerParty == incoming.party
                             && ts[j].maker == os[j].id && ts[j].makerParty == os[j].party
                             && ts[j].makerSide == os[j].side && ts[j].price == os[j].price
                             && ts[j].qty == Share(os, q, j))
    decreases |os|
  {
    FewTrades(incoming, os, q);
    if j > 0 && q > 0 {
      if os[0].leaves <= q {
        TradesAreShares(incoming, os[1..], q - os[0].leaves, j - 1);
        SharesOfTail(os, q, j);
      } else {
        SumOfPrefix(os, 0, j);
      }
    }
  }

  lemma {:induction false} FewTrades(incoming: Order, os: seq<Order>, q: nat)
    ensures |Fill(incoming, os, q).trades| <= |os|
    decreases |os|
  {
    if q != 0 && os != [] && os[0].leaves <= q { FewTrades(incoming, os[1..], q - os[0].leaves); }
  }

  /** The queue loses what the incoming order loses; a remainder means the queue is used up. */
  lemma {:induction false} FillTakesFromQueue(incoming: Order, os: seq<Order>, q: nat)
    ensures var f := Fill(incoming, os, q);
            && SumLeaves(f.rest) + q == SumLeaves(os) + f.left
            && f.left <= q && (f.left > 0 ==> f.rest == [])
    decreases |os|
  {
    if q != 0 && os != [] && os[0].leaves <= q {
      FillTakesFromQueue(incoming, os[1..], q - os[0].leaves);
    }
  }

  ghost predicate AllOn(side: Side, os: seq<Order>) { forall i :: 0 <= i < |os| ==> os[i].side == side }

  /** For every order id, and for either side of every party, what is traded is what queue and incoming order lose. */
  lemma {:induction false} FillConserves(incoming: Order, os: seq<Order>, q: nat, scope: Scope)
    requires AllOn(Opposite(incoming.side), os)
    ensures var f := Fill(incoming, os, q);
            && f.left <= q
            && LeavesOf(f.rest, scope) + Traded(f.trades, scope)
               == LeavesOf(os, scope) + if Within(incoming, scope) then q - f.left else 0
    decreases |os|
  {
    if q != 0 && os != [] {
      assert os[0].side == Opposite(incoming.side);
      if os[0].leaves <= q {
        var f := Fill(incoming, os[1..], q - os[0].leaves);
        FillConserves(incoming, os[1..], q - os[0].leaves, scope);
        CrossInScope(incoming, os[0], os[0].leaves, f.trades, scope);
      } else {
        LastConserves(incoming, os, q, scope);
      }
    }
  }

  lemma LastConserves(incoming: Order, os: seq<Order>, q: nat, scope: Scope)
    requires os != [] && 0 < q < os[0].leaves && os[0].side == Opposite(incoming.side)
    ensures var f := Fill(incoming, os, q);
            LeavesOf(f.rest, scope) + Traded(f.trades, scope)
            == LeavesOf(os, scope) + if Within(incoming, scope) then q else 0
  {
    CrossInScope(incoming, os[0], q, [], scope);
    assert ([os[0].(leaves := os[0].leaves - q)] + os[1..])[1..] == os[1..];
    assert [Cross(incoming, os[0], q)] + [] == [Cross(incoming, os[0], q)];
  }

  /** Both orders of a trade lose its quantity. */
  lemma CrossInScope(incoming: Order, o: Order, qty: nat, ts: seq<Trade>, scope: Scope)
    requires o.side == Opposite(incoming.side)
    ensures Traded([Cross(incoming, o, qty)] + ts, scope)
            == (if Within(incoming, scope) then qty else 0) + (if Within(o, scope) then qty else 0) + Traded(ts, scope)
  {
    assert ([Cross(incoming, o, qty)] + ts)[1..] == ts;
  }

  lemma FillFirst(incoming: Order, o: Order, os: seq<Order>, q: nat)
    requires 0 < q && o.leaves <= q
    ensures var f := Fill(incoming, os, q - o.leaves);
            Fill(incoming, [o] + os, q) == Filling(f.rest, [Cross(incoming, o, o.leaves)] + f.trades, f.left)
  {
    assert ([o] + os)[1..] == os;
  }

  /** A queue that is used up is followed by the next one. */
  lemma {:induction false} FillConcat(incoming: Order, a: seq<Order>, b: seq<Order>, q: nat)
    requires Fill(incoming, a, q).rest == []
    ensures var f, g := Fill(incoming, a, q), Fill(incoming, b, Fill(incoming, a, q).left);
            Fill(incoming, a + b, q) == Filling(g.rest, f.trades + g.trades, g.left)
    decreases |a|
  {
    if a == [] {
      var g := Fill(incoming, b, q);
      assert a + b == b && [] + g.trades == g.trades;
    } else {
      var o, os := a[0], a[1..];
      var f := Fill(incoming, os, q - o.leaves);
      var g := Fill(incoming, b, f.left);
      FillConcat(incoming, os, b, q - o.leaves);
      assert a + b == [o] + (os + b) by { assert a == [o] + os; }
      FillFirst(incoming, o, os + b, q);
      Associative([Cross(incoming, o, o.leaves)], f.trades, g.trades);
    }
  }
}
