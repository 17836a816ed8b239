/** PrestoLabs: the accounts that every trade is posted to, quantities only. */
module Ledger {
  import opened Matching

  datatype Account = Account(party: nat, longQty: nat, shortQty: nat)

  function Bump(a: Account, side: Side, qty: nat): Account {
    if side.Buy? then a.(longQty := a.longQty + qty) else a.(shortQty := a.shortQty + qty)
  }

  /** The table after updating the account of a party, which is created on first use. */
  function Updated(es: seq<Account>, side: Side, party: nat, qty: nat): seq<Account> {
    if es == [] then [Bump(Account(party, 0, 0), side, qty)]
    else if es[0].party == party then [Bump(es[0], side, qty)] + es[1..]
    else [es[0]] + Updated(es[1..], side, party, qty)
  }

  function Post(es: seq<Account>, t: Trade): seq<Account> {
    Updated(Updated(es, t.makerSide, t.makerParty, t.qty), Opposite(t.makerSide), t.takerParty, t.qty)
  }

  function PostAll(es: seq<Account>, ts: seq<Trade>): seq<Account>
    decreases |ts|
  {
    if ts == [] then es else PostAll(Post(es, ts[0]), ts[1..])
  }

  /** What a party holds on one side; Total is the same over all parties. */
  function Held(es: seq<Account>, side: Side, party: nat): nat {
    if es == [] then 0
    else (if es[0].party == party then Quantity(es[0], side) else 0) + Held(es[1..], side, party)
  }

  function Total(es: seq<Account>, side: Side): nat {
    if es == [] then 0 else Quantity(es[0], side) + Total(es[1..], side)
  }

  function Quantity(a: Account, side: Side): nat { if side.Buy? then a.longQty else a.shortQty }

  function Volume(ts: seq<Trade>): nat { if ts == [] then 0 else ts[0].qty + Volume(ts[1..]) }

  lemma {:induction false} UpdateAdds(es: seq<Account>, side: Side, party: nat, qty: nat, s: Side, p: nat)
    ensures var e := Updated(es, side, party, qty);
            && Held(e, s, p) == Held(es, s, p) + (if s == side && p == party then qty else 0)
            && Total(e, s) == Total(es, s) + (if s == side then qty else 0)
  {
    if es != [] && es[0].party != party {
      UpdateAdds(es[1..], side, party, qty, s, p);
      assert ([es[0]] + Updated(es[1..], side, party, qty))[1..] == Updated(es[1..], side, party, qty);
    }
  }

  /** Posting the trades gives every party what it traded, and both sides of the ledger the volume. */
  lemma {:induction false} PostingBalances(es: seq<Account>, ts: seq<Trade>, s: Side, p: nat)
    ensures Held(PostAll(es, ts), s, p) == Held(es, s, p) + Traded(ts, OfParty(s, p))
    ensures Total(PostAll(es, ts), s) == Total(es, s) + Volume(ts)
    decreases |ts|
  {
    if ts != [] {
      var t := ts[0];
      UpdateAdds(es, t.makerSide, t.makerParty, t.qty, s, p);
      UpdateAdds(Updated(es, t.makerSide, t.makerParty, t.qty), Opposite(t.makerSide), t.takerParty, t.qty, s, p);
      PostingBalances(Post(es, t), ts[1..], s, p);
    }
  }

  ghost predicate HasAccount(es: seq<Account>, party: nat) { exists i :: 0 <= i < |es| && es[i].party == party }

  ghost predicate OneEach(es: seq<Account>) { forall i, j :: 0 <= i < j < |es| ==> es[i].party != es[j].party }

  /** An account is created on first use, and there is never a second one for a party. */
  lemma {:induction false} UpdateKeepsOneEach(es: seq<Account>, side: Side, party: nat, qty: nat)
    requires OneEach(es)
    ensures var e := Updated(es, side, party, qty);
            && OneEach(e) && |e| == |es| + (if HasAccount(es, party) then 0 else 1)
            && forall p: nat :: HasAccount(e, p) <==> HasAccount(es, p) || p == party
  {
    var i := 0;
    while i < |es| && es[i].party != party
      invariant i <= |es| && forall j :: 0 <= j < i ==> es[j].party != party
    {
      i := i + 1;
    }
    UpdatedAt(es, side, party, qty, i);
    var e := Updated(es, side, party, qty);
    assert |e| > i && e[i].party == party;
    forall p: nat ensures HasAccount(e, p) <==> HasAccount(es, p) || p == party {
      if HasAccount(es, p) {
        var j :| 0 <= j < |es| && es[j].party == p;
        assert e[j].party == p;
      }
    }
  }

  lemma {:induction false} PostingKeepsOneEach(es: seq<Account>, ts: seq<Trade>)
    requires OneEach(es)
    ensures OneEach(PostAll(es, ts))
    decreases |ts|
  {
    if ts != [] {
      var t := ts[0];
      UpdateKeepsOneEach(es, t.makerSide, t.makerParty, t.qty);
      UpdateKeepsOneEach(Updated(es, t.makerSide, t.makerParty, t.qty), Opposite(t.makerSide), t.takerParty, t.qty);
      PostingKeepsOneEach(Post(es, t), ts[1..]);
    }
  }

  lemma {:induction false} PostConcat(es: seq<Account>, a: seq<Trade>, b: seq<Trade>)
    ensures PostAll(es, a + b) == PostAll(PostAll(es, a), b)
    decreases |a|
  {
    if a == [] {
      assert a + b == b;
    } else {
      assert (a + b)[1..] == a[1..] + b;
      PostConcat(Post(es, a[0]), a[1..], b);
    }
  }

  lemma PostOne(es: seq<Account>, t: Trade)
    ensures PostAll(es, [t]) == Post(es, t)
  {
    assert [t][1..] == [];
  }

  lemma {:induction false} UpdatedAt(es: seq<Account>, side: Side, party: nat, qty: nat, i: nat)
    requires i <= |es| && forall j :: 0 <= j < i ==> es[j].party != party
    ensures i == |es| ==> Updated(es, side, party, qty) == es + [Bump(Account(party, 0, 0), side, qty)]
    ensures i < |es| && es[i].party == party ==> Updated(es, side, party, qty) == es[i := Bump(es[i], side, qty)]
    decreases |es|
  {
    if es != [] && i > 0 {
      UpdatedAt(es[1..], side, party, qty, i - 1);
      if i < |es| {
        assert es[i := Bump(es[i], side, qty)] == [es[0]] + es[1..][i - 1 := Bump(es[i], side, qty)];
      }
    }
  }

  class Accounts {
    var entries: seq<Account>

    constructor ()
      ensures entries == []
    {
      entries := [];
    }

    method Update(side: Side, party: nat, qty: nat)
      modifies this
      ensures entries == Updated(old(entries), side, party, qty)
    {
      var i := 0;
      while i < |entries| && entries[i].party != party
        invariant 0 <= i <= |entries|
        invariant forall j :: 0 <= j < i ==> entries[j].party != party
      {
        i := i + 1;
      }
      UpdatedAt(entries, side, party, qty, i);
      if i == |entries| { entries := entries + [Account(party, 0, 0)]; }
      entries := entries[i := Bump(entries[i], side, qty)];
    }
  }
}
