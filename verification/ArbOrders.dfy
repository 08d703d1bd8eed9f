/** The orders that the arbitrage sends, field by field, when it sends them, and what it books without any. */
module ArbOrders {
  import opened Market
  import opened Sums
  import opened Accounting
  import opened ArbSnapshots
  import opened Arb

  predicate Is(o: SentOrder, id: OrderId, symbol: Symbol, side: Side, qty: int, price: int)
  {
    o.id == id && o.symbol == symbol && o.side == side && o.qty == qty && o.price == price
  }

  /** Among the orders is one for this leg, under this id. */
  ghost predicate Includes(orders: seq<SentOrder>, id: OrderId, leg: Leg)
  {
    exists j :: 0 <= j < |orders| && Is(orders[j], id, leg.symbol, leg.side, leg.left, leg.limit)
  }

  predicate OnSheet(sheet: Sheet, o: SentOrder)
  {
    o.id in sheet && Is(o, o.id, sheet[o.id].symbol, sheet[o.id].side, sheet[o.id].left, sheet[o.id].limit)
  }

  /** The sheet holds exactly the orders sent: each of them, and nothing else. */
  ghost predicate SheetIs(sheet: Sheet, orders: seq<SentOrder>)
  {
    && (forall id | id in sheet :: Includes(orders, id, sheet[id]))
    && (forall j | 0 <= j < |orders| :: OnSheet(sheet, orders[j]))
  }

  lemma IncludesMore(orders: seq<SentOrder>, o: SentOrder, id: OrderId, leg: Leg)
    ensures Includes(orders, id, leg) ==> Includes(orders + [o], id, leg)
    ensures Is(o, id, leg.symbol, leg.side, leg.left, leg.limit) ==> Includes(orders + [o], id, leg)
  {
    assert (orders + [o])[|orders|] == o;
    if Includes(orders, id, leg) {
      var j :| 0 <= j < |orders| && Is(orders[j], id, leg.symbol, leg.side, leg.left, leg.limit);
      assert (orders + [o])[j] == orders[j];
    }
  }

  lemma SheetPut(sheet: Sheet, orders: seq<SentOrder>, o: SentOrder, leg: Leg)
    requires SheetIs(sheet, orders) && o.id !in sheet && Is(o, o.id, leg.symbol, leg.side, leg.left, leg.limit)
    ensures SheetIs(sheet[o.id := leg], orders + [o])
  {
    var more, all := sheet[o.id := leg], orders + [o];
    forall id | id in more
      ensures Includes(all, id, more[id])
    {
      IncludesMore(orders, o, id, more[id]);
    }
    forall j | 0 <= j < |all|
      ensures OnSheet(more, all[j])
    {
      assert j < |orders| ==> all[j] == orders[j] && OnSheet(sheet, orders[j]);
    }
  }

  /** What has been sent beyond what had been. */
  function NewlySent(before: Book, after: Book): seq<SentOrder>
    requires |before.sent| <= |after.sent|
  {
    after.sent[|before.sent|..]
  }

  predicate Extends(before: Book, after: Book)
  {
    |before.sent| <= |after.sent| && after.sent[..|before.sent|] == before.sent
  }

  lemma SendAdds(first: Book, b: Book, symbol: Symbol, side: Side, qty: int, price: int)
    requires Extends(first, b)
    ensures
      var after := Send(b, symbol, side, qty, price);
      && Extends(first, after) && NewlySent(first, after) == NewlySent(first, b) + [after.sent[|b.sent|]]
      && Is(after.sent[|b.sent|], b.nextId, symbol, side, qty, price)
  {
  }

  // ---- the redemption trade

  /** The orders for the first `k` dorms, numbered from `first`. */
  predicate SellsDorms(orders: seq<SentOrder>, first: nat, snap: ArbSnapshot, qty: int, k: nat)
    requires k <= DORM_COUNT == |snap.dorms|
  {
    |orders| == k && forall i | 0 <= i < k :: Is(orders[i], first + i, Dorm(i), Sell, qty, snap.dorms[i].bidPrice)
  }

  lemma {:induction false} SellDormsSends(b: Book, snap: ArbSnapshot, qty: int, k: nat)
    requires k <= DORM_COUNT == |snap.dorms|
    ensures
      var after := SellDorms(b, snap, qty, k);
      && Extends(b, after) && after.nextId == b.nextId + k
      && SellsDorms(NewlySent(b, after), b.nextId, snap, qty, k)
  {
    if k > 0 {
      SellDormsSends(b, snap, qty, k - 1);
      SendAdds(b, SellDorms(b, snap, qty, k - 1), Dorm(k - 1), Sell, qty, snap.dorms[k - 1].bidPrice);
    }
  }

  lemma SellSheetNext(orders: seq<SentOrder>, o: SentOrder, first: nat, snap: ArbSnapshot, qty: int, k: nat)
    requires 0 < k <= DORM_COUNT == |snap.dorms| && SheetIs(SellSheet(first, snap, qty, k - 1), orders)
    requires Is(o, first + k - 1, Dorm(k - 1), Sell, qty, snap.dorms[k - 1].bidPrice)
    requires o.id !in SellSheet(first, snap, qty, k - 1)
    ensures SheetIs(SellSheet(first, snap, qty, k), orders + [o])
  {
    SheetPut(SellSheet(first, snap, qty, k - 1), orders, o,
             Leg(Dorm(k - 1), Sell, qty, snap.dorms[k - 1].bidPrice));
  }

  lemma SellSheetNextFree(first: nat, snap: ArbSnapshot, qty: int, k: nat)
    requires k < DORM_COUNT == |snap.dorms|
    ensures first + k !in SellSheet(first, snap, qty, k)
  {
    SellSheetIds(first, snap, qty, k);
  }

  lemma {:induction false} SellSheetIsSent(b: Book, snap: ArbSnapshot, qty: int, k: nat)
    requires k <= DORM_COUNT == |snap.dorms|
    ensures
      var after := SellDorms(b, snap, qty, k);
      && Extends(b, after) && after.nextId == b.nextId + k
      && SheetIs(SellSheet(b.nextId, snap, qty, k), NewlySent(b, after))
  {
    if k > 0 {
      var before, after := SellDorms(b, snap, qty, k - 1), SellDorms(b, snap, qty, k);
      var o := after.sent[|before.sent|];
      SellSheetIsSent(b, snap, qty, k - 1);
      SendAdds(b, before, Dorm(k - 1), Sell, qty, snap.dorms[k - 1].bidPrice);
      SellSheetNextFree(b.nextId, snap, qty, k - 1);
      SellSheetNext(NewlySent(b, before), o, b.nextId, snap, qty, k);
    }
  }

  lemma DormsGoOut(b: Book, snap: ArbSnapshot, qty: int)
    requires |snap.dorms| == DORM_COUNT
    ensures
      var after := SellDorms(b, snap, qty, DORM_COUNT);
      && Extends(b, after) && SellsDorms(NewlySent(b, after), b.nextId, snap, qty, 10)
      && SheetIs(SellSheet(b.nextId, snap, qty, DORM_COUNT), NewlySent(b, after))
  {
    SellDormsSends(b, snap, qty, DORM_COUNT);
    SellSheetIsSent(b, snap, qty, DORM_COUNT);
  }

  lemma BuyingSends(b: Book, snap: ArbSnapshot)
    ensures
      var buying := Buying(b, snap);
      && Extends(b, buying) && |NewlySent(b, buying)| == 1
      && Is(NewlySent(b, buying)[0], b.nextId, UNDY, Buy, RedemptionSize(snap), snap.undyAskPrice)
      && SheetIs(BuySheet(b, snap), NewlySent(b, buying))
  {
    SendAdds(b, b.(inProgress := true), UNDY, Buy, RedemptionSize(snap), snap.undyAskPrice);
    var o := NewlySent(b, Buying(b, snap))[0];
    SheetPut(map[], [], o, Leg(UNDY, Buy, RedemptionSize(snap), snap.undyAskPrice));
    assert [] + [o] == NewlySent(b, Buying(b, snap));
  }

  /** What is sent on the way to a redemption, and what after it. */
  lemma RedemptionSends(b: Book, snap: ArbSnapshot, r: Replies)
    requires Shaped(b.account) && |snap.dorms| == DORM_COUNT == |r.marks| && Attempts(b, snap)
    requires r.bought && r.filled && r.redeemed
    ensures
      var settled := Settled(b, snap, r);
      && settled.nextId == b.nextId + 1 && settled.sent == Buying(b, snap).sent
      && TryRedemption(b, snap, r).0.sent == SellDorms(settled, snap, RedemptionSize(snap), DORM_COUNT).sent
  {
    Stages(b, snap, r, []);
    DeliverKeepsSent(Buying(b, snap), BuyFills(r));
    DeliverKeepsCounter(Buying(b, snap), BuyFills(r));
    DeliverKeepsSent(Selling(b, snap, r), r.whileSelling + []);
    var after := TryRedemption(b, snap, r).0;
    assert Deliver(after, []) == after;
  }

  lemma SentInTwo(b: Book, mid: Book, after: Book)
    requires Extends(b, mid) && Extends(mid, after)
    ensures Extends(b, after) && NewlySent(b, after) == NewlySent(b, mid) + NewlySent(mid, after)
  {
  }

  /** Eleven orders: the fund, bought at its ask, then each dorm, sold at its bid, all of the one size. They are exactly
      the orders of the two sheets. */
  ghost predicate TradesFund(b: Book, snap: ArbSnapshot, orders: seq<SentOrder>)
    requires |snap.dorms| == DORM_COUNT
  {
    && |orders| == 11
    && Is(orders[0], b.nextId, UNDY, Buy, RedemptionSize(snap), snap.undyAskPrice)
    && SellsDorms(orders[1..], b.nextId + 1, snap, RedemptionSize(snap), 10)
    && SheetIs(BuySheet(b, snap), orders[..1]) && SheetIs(SellOrders(b, snap), orders[1..])
  }

  lemma TwoParts(b: Book, snap: ArbSnapshot, first: seq<SentOrder>, rest: seq<SentOrder>)
    requires |snap.dorms| == DORM_COUNT && |first| == 1
    requires Is(first[0], b.nextId, UNDY, Buy, RedemptionSize(snap), snap.undyAskPrice)
    requires SellsDorms(rest, b.nextId + 1, snap, RedemptionSize(snap), 10)
    requires SheetIs(BuySheet(b, snap), first) && SheetIs(SellOrders(b, snap), rest)
    ensures TradesFund(b, snap, first + rest)
  {
    HeadAndTail(first, rest);
  }

  /** What a trade that goes through sends. */
  lemma RedemptionOrders(b: Book, snap: ArbSnapshot, r: Replies)
    requires Shaped(b.account) && |snap.dorms| == DORM_COUNT == |r.marks| && Attempts(b, snap)
    requires r.bought && r.filled && r.redeemed
    ensures
      var after := TryRedemption(b, snap, r).0;
      Extends(b, after) && TradesFund(b, snap, NewlySent(b, after))
  {
    var settled, size := Settled(b, snap, r), RedemptionSize(snap);
    var selling := SellDorms(settled, snap, size, DORM_COUNT);
    RedemptionSends(b, snap, r);
    BuyingSends(b, snap);
    DormsGoOut(settled, snap, size);
    SentIsSame(b, Buying(b, snap), settled);
    SentInTwo(b, settled, selling);
    SentIsSame(b, selling, TryRedemption(b, snap, r).0);
    TwoParts(b, snap, NewlySent(b, settled), NewlySent(settled, selling));
  }

  lemma SentIsSame(b: Book, x: Book, y: Book)
    requires x.sent == y.sent && Extends(b, x)
    ensures Extends(b, y) && NewlySent(b, x) == NewlySent(b, y)
  {
  }

  lemma HeadAndTail(first: seq<SentOrder>, rest: seq<SentOrder>)
    requires |first| == 1
    ensures (first + rest)[0] == first[0] && (first + rest)[..1] == first && (first + rest)[1..] == rest
  {
  }

  /** What such a trade books besides fills: the fund out at its ask, each dorm in at its mark. */
  lemma RedemptionAccount(b: Book, snap: ArbSnapshot, r: Replies) returns (fills: seq<Fill>)
    requires Shaped(b.account) && |snap.dorms| == DORM_COUNT == |r.marks| && Attempts(b, snap)
    requires r.bought && r.filled && r.redeemed
    ensures |fills| == 11 && IsFill(fills[0], UNDY, Sell, RedemptionSize(snap) as U32, snap.undyAskPrice)
    ensures forall i | 0 <= i < 10 :: IsFill(fills[1 + i], Dorm(i), Buy, RedemptionSize(snap) as U32, r.marks[i])
    ensures Settled(b, snap, r).account == OnFills(Deliver(Buying(b, snap), BuyFills(r)).account, fills)
    ensures TryRedemption(b, snap, r).0 == Deliver(Selling(b, snap, r), r.whileSelling)
  {
    Stages(b, snap, r, []);
    assert r.whileSelling + [] == r.whileSelling;
    var after := TryRedemption(b, snap, r).0;
    assert Deliver(after, []) == after;
    fills := RedemptionBooks(Deliver(Buying(b, snap), BuyFills(r)).account, RedemptionSize(snap) as U32, r.marks,
                             snap.undyAskPrice);
  }

  /** When it is tried: no trade is in progress, every dorm has a bid and the fund an ask, the bids together are worth
      more, and at least one can be traded on every leg inside its position limit. */
  lemma AttemptsIff(b: Book, snap: ArbSnapshot)
    requires |snap.dorms| == DORM_COUNT && snap.navBid == SumBids(snap.dorms)
    requires snap.bidMissing <==> exists i | 0 <= i < DORM_COUNT :: snap.dorms[i].bidPrice == 0
    ensures
      Attempts(b, snap) <==>
        && !b.inProgress && snap.undyAskPrice != 0 && (forall i | 0 <= i < 10 :: snap.dorms[i].bidPrice != 0)
        && snap.undyAskPrice < Total(BidColumn(snap.dorms))
        && 1 <= WrapI32(snap.undyAskQty) && snap.undyPosition <= 8
        && (forall i | 0 <= i < 10 :: 1 <= WrapI32(snap.dorms[i].bidQty) && -8 <= snap.dorms[i].position)
  {
    SizesAreLargest(snap, 1);
    SumsAreTotals(snap.dorms);
  }

  /** How it ends. Not tried, it changes nothing. Refused, it was no attempt; unfilled, it was one; either way the flag
      is down again. From the redemption on the flag stays up, whether the fund service agrees or not. Short of a
      redemption only the fund order has gone out, and nothing is booked but fills. */
  lemma RedemptionEnds(b: Book, snap: ArbSnapshot, r: Replies)
    requires Shaped(b.account) && |snap.dorms| == DORM_COUNT == |r.marks|
    ensures !Attempts(b, snap) ==> TryRedemption(b, snap, r) == (b, false)
    ensures
      var (after, attempted) := TryRedemption(b, snap, r);
      Attempts(b, snap) ==>
        && attempted == r.bought && after.inProgress == (r.bought && r.filled) && Extends(b, after)
        && |NewlySent(b, after)| == (if r.bought && r.filled && r.redeemed then 11 else 1)
        && (!r.bought ==> after.account == Deliver(Buying(b, snap), r.whileSending).account)
        && (r.bought && !(r.filled && r.redeemed) ==> after.account == Deliver(Buying(b, snap), BuyFills(r)).account)
  {
    if Attempts(b, snap) {
      DeliverKeepsFlag(Buying(b, snap), r.whileSending);
      DeliverKeepsSent(Buying(b, snap), r.whileSending);
      DeliverAppend(Buying(b, snap), r.whileSending, r.whileWaiting);
      DeliverKeepsFlag(Buying(b, snap), BuyFills(r));
      DeliverKeepsSent(Buying(b, snap), BuyFills(r));
      BuyingSends(b, snap);
      if r.bought && r.filled && r.redeemed {
        RedemptionOrders(b, snap, r);
        SellDormsKeepsFlag(Settled(b, snap, r), snap, RedemptionSize(snap), DORM_COUNT);
        DeliverKeepsFlag(Selling(b, snap, r), r.whileSelling);
      }
    }
  }

  lemma {:induction false} DeliverKeepsFlag(b: Book, evs: seq<FillEvent>)
    requires Shaped(b.account)
    ensures Deliver(b, evs).inProgress == b.inProgress
    decreases |evs|
  {
    if evs != [] {
      DeliverKeepsFlag(RouteFill(b, evs[0]), evs[1..]);
    }
  }

  lemma {:induction false} SellDormsKeepsFlag(b: Book, snap: ArbSnapshot, qty: int, k: nat)
    requires k <= DORM_COUNT == |snap.dorms|
    ensures SellDorms(b, snap, qty, k).inProgress == b.inProgress
  {
    if k > 0 {
      SellDormsKeepsFlag(b, snap, qty, k - 1);
    }
  }

  // ---- unwinding

  /** The order that closes a dorm: a long is sold at the bid, a short bought back at the ask, all of it. */
  predicate Closes(o: SentOrder, i: int, position: int, bid: int, ask: int)
  {
    && 0 <= i < DORM_COUNT && o.symbol == Dorm(i) && Closable(position, bid, ask)
    && if 0 < position then o.side == Sell && o.qty == position && o.price == bid
       else o.side == Buy && o.qty == -position && o.price == ask
  }

  /** This order closes one of the first `k` dorms. */
  ghost predicate ClosesOne(b: Book, bids: seq<int>, asks: seq<int>, k: nat, o: SentOrder)
    requires Shaped(b.account) && k <= DORM_COUNT == |bids| == |asks|
  {
    exists i :: 0 <= i < k && Closes(o, i, b.account.position[Dorm(i)], bids[i], asks[i])
  }

  ghost predicate HasOrderFor(orders: seq<SentOrder>, s: Symbol)
  {
    exists j :: 0 <= j < |orders| && orders[j].symbol == s
  }

  /** Every order closes a dorm, every dorm to be closed has one, and they go in the order of the dorms. */
  ghost predicate ClosesFirst(b: Book, bids: seq<int>, asks: seq<int>, k: nat, orders: seq<SentOrder>)
    requires Shaped(b.account) && k <= DORM_COUNT == |bids| == |asks|
  {
    && (forall j | 0 <= j < |orders| :: ClosesOne(b, bids, asks, k, orders[j]))
    && (forall i | 0 <= i < k && Closable(b.account.position[Dorm(i)], bids[i], asks[i]) ::
          HasOrderFor(orders, Dorm(i)))
    && (forall i, j | 0 <= i < j < |orders| :: orders[i].symbol < orders[j].symbol)
  }

  /** Unwinding sends one order for each dorm that there is something to close of and a price to close it at, in the
      order of the dorms, and nothing else. */
  lemma {:induction false} UnwindOrders(b: Book, bids: seq<int>, asks: seq<int>, k: nat)
    requires Shaped(b.account) && k <= DORM_COUNT == |bids| == |asks|
    ensures
      var after := SendClosing(b, bids, asks, k);
      Extends(b, after) && ClosesFirst(b, bids, asks, k, NewlySent(b, after))
  {
    if k > 0 {
      var i, before := k - 1, SendClosing(b, bids, asks, k - 1);
      UnwindOrders(b, bids, asks, i);
      match DormOrder(b, bids, asks, i) {
        case NoOrder =>
          NoneMore(b, bids, asks, i, NewlySent(b, before));
        case Order(side, qty, price) =>
          SendAdds(b, before, Dorm(i), side, qty, price);
          OneMore(b, bids, asks, i, NewlySent(b, before), SentOrder(before.nextId, Dorm(i), side, qty, price));
      }
    }
  }

  /** They are exactly the orders of the closing sheet. */
  lemma {:induction false} UnwindSheetIsSent(b: Book, bids: seq<int>, asks: seq<int>, k: nat)
    requires Shaped(b.account) && k <= DORM_COUNT == |bids| == |asks|
    ensures
      var after := SendClosing(b, bids, asks, k);
      Extends(b, after) && SheetIs(ClosingSheet(b, bids, asks, k), NewlySent(b, after))
  {
    if k > 0 {
      var i, before := k - 1, SendClosing(b, bids, asks, k - 1);
      UnwindSheetIsSent(b, bids, asks, i);
      ClosingSheetIds(b, bids, asks, i);
      match DormOrder(b, bids, asks, i) {
        case NoOrder =>
        case Order(side, qty, price) =>
          SendAdds(b, before, Dorm(i), side, qty, price);
          SheetPut(ClosingSheet(b, bids, asks, i), NewlySent(b, before),
                   SentOrder(before.nextId, Dorm(i), side, qty, price), Leg(Dorm(i), side, qty, price));
      }
    }
  }

  lemma NoneMore(b: Book, bids: seq<int>, asks: seq<int>, i: nat, orders: seq<SentOrder>)
    requires Shaped(b.account) && i < DORM_COUNT == |bids| == |asks| && ClosesFirst(b, bids, asks, i, orders)
    requires !Closable(b.account.position[Dorm(i)], bids[i], asks[i])
    ensures ClosesFirst(b, bids, asks, i + 1, orders)
  {
    forall j | 0 <= j < |orders|
      ensures ClosesOne(b, bids, asks, i + 1, orders[j])
    {
      ClosesLater(b, bids, asks, i, orders[j]);
    }
  }

  lemma ClosesLater(b: Book, bids: seq<int>, asks: seq<int>, i: nat, o: SentOrder)
    requires Shaped(b.account) && i < DORM_COUNT == |bids| == |asks| && ClosesOne(b, bids, asks, i, o)
    ensures ClosesOne(b, bids, asks, i + 1, o) && o.symbol < Dorm(i)
  {
    var n :| 0 <= n < i && Closes(o, n, b.account.position[Dorm(n)], bids[n], asks[n]);
    assert 0 <= n < i + 1 && Closes(o, n, b.account.position[Dorm(n)], bids[n], asks[n]);
  }

  lemma HasOrderMore(orders: seq<SentOrder>, o: SentOrder, s: Symbol)
    ensures HasOrderFor(orders + [o], s) <==> HasOrderFor(orders, s) || o.symbol == s
  {
    var all := orders + [o];
    assert all[|orders|] == o;
    if j :| 0 <= j < |orders| && orders[j].symbol == s {
      assert all[j].symbol == s;
    }
  }

  lemma OneMore(b: Book, bids: seq<int>, asks: seq<int>, i: nat, orders: seq<SentOrder>, o: SentOrder)
    requires Shaped(b.account) && i < DORM_COUNT == |bids| == |asks| && ClosesFirst(b, bids, asks, i, orders)
    requires Closes(o, i, b.account.position[Dorm(i)], bids[i], asks[i])
    ensures ClosesFirst(b, bids, asks, i + 1, orders + [o])
  {
    var all := orders + [o];
    forall j | 0 <= j < |all|
      ensures ClosesOne(b, bids, asks, i + 1, all[j]) && (j < |orders| ==> all[j].symbol < o.symbol)
    {
      if j < |orders| {
        ClosesLater(b, bids, asks, i, orders[j]);
        assert all[j] == orders[j];
      } else {
        assert Closes(all[j], i, b.account.position[Dorm(i)], bids[i], asks[i]);
      }
    }
    forall n | 0 <= n < i + 1 && Closable(b.account.position[Dorm(n)], bids[n], asks[n])
      ensures HasOrderFor(all, Dorm(n))
    {
      HasOrderMore(orders, o, Dorm(n));
    }
  }

  // ---- fills that are booked without an order

  lemma {:induction false} OnFillsSnoc(a: Account, fills: seq<Fill>, f: Fill)
    requires Shaped(a)
    ensures OnFills(a, fills + [f]) == OnFill(OnFills(a, fills), f)
    decreases |fills|
  {
    if fills == [] {
      assert [] + [f] == [f] && [f][1..] == [];
      assert OnFills(a, [f]) == OnFills(OnFill(a, f), []);
    } else {
      assert (fills + [f])[0] == fills[0] && (fills + [f])[1..] == fills[1..] + [f];
      OnFillsSnoc(OnFill(a, fills[0]), fills[1..], f);
    }
  }

  predicate IsFill(f: Fill, symbol: Symbol, side: Side, qty: U32, price: int)
  {
    f.symbol == symbol && f.side == side && f.qty == qty && f.price == price
  }

  lemma {:induction false} MoveDormsBooks(a: Account, fills: seq<Fill>, side: Side, qty: U32, marks: seq<int>, k: nat)
    returns (all: seq<Fill>)
    requires Shaped(a) && k <= DORM_COUNT == |marks|
    ensures |all| == |fills| + k && all[..|fills|] == fills
    ensures forall i | 0 <= i < k :: IsFill(all[|fills| + i], Dorm(i), side, qty, marks[i])
    ensures MoveDorms(OnFills(a, fills), side, qty, marks, k) == OnFills(a, all)
    decreases k
  {
    all := fills;
    if k > 0 {
      all := MoveDormsBooks(a, fills, side, qty, marks, k - 1);
      OnFillsSnoc(a, all, Fill(Dorm(k - 1), side, qty, marks[k - 1]));
      all := all + [Fill(Dorm(k - 1), side, qty, marks[k - 1])];
    }
  }

  /** A redemption books eleven fills of the one size: the fund sold at the price it was bought for, and each dorm
      bought at its own mark. */
  lemma RedemptionBooks(a: Account, qty: U32, marks: seq<int>, undyPrice: int) returns (fills: seq<Fill>)
    requires Shaped(a) && |marks| == DORM_COUNT
    ensures |fills| == 11 && IsFill(fills[0], UNDY, Sell, qty, undyPrice)
    ensures forall i | 0 <= i < 10 :: IsFill(fills[1 + i], Dorm(i), Buy, qty, marks[i])
    ensures SettleRedemption(a, qty, marks, undyPrice) == OnFills(a, fills)
  {
    var fund := Fill(UNDY, Sell, qty, undyPrice);
    OnFillsSnoc(a, [], fund);
    assert [] + [fund] == [fund];
    fills := MoveDormsBooks(a, [fund], Buy, qty, marks, DORM_COUNT);
    assert fills[0] == fills[..1][0];
  }

  /** A creation books each dorm sold at its own mark, then the fund bought. */
  lemma CreationBooks(a: Account, qty: U32, marks: seq<int>, undyPrice: int) returns (fills: seq<Fill>)
    requires Shaped(a) && |marks| == DORM_COUNT
    ensures |fills| == 11 && IsFill(fills[10], UNDY, Buy, qty, undyPrice)
    ensures forall i | 0 <= i < 10 :: IsFill(fills[i], Dorm(i), Sell, qty, marks[i])
    ensures SettleCreation(a, qty, marks, undyPrice) == OnFills(a, fills)
  {
    fills := MoveDormsBooks(a, [], Sell, qty, marks, DORM_COUNT);
    OnFillsSnoc(a, fills, Fill(UNDY, Buy, qty, undyPrice));
    fills := fills + [Fill(UNDY, Buy, qty, undyPrice)];
  }

  // ---- what a fill does to the order maps

  /** A closing fill makes its order unknown, and frees the market maker's side it stood for; any other fill leaves the
      maps alone. Our own orders come before the market maker's; a fill of neither changes nothing. */
  lemma FillRoutes(b: Book, ev: FillEvent)
    requires Shaped(b.account)
    ensures
      var after := RouteFill(b, ev);
      var own, maker := ev.id in b.orders, ev.id !in b.orders && ev.id in b.mmOrders;
      && after.orders == (if own && ev.closed then b.orders - {ev.id} else b.orders)
      && after.mmOrders == (if maker && ev.closed then b.mmOrders - {ev.id} else b.mmOrders)
      && after.blueBid == (if maker && ev.closed && b.blueBid == ev.id then 0 else b.blueBid)
      && after.blueAsk == (if maker && ev.closed && b.blueAsk == ev.id then 0 else b.blueAsk)
      && (own ==> after.account
                    == OnFill(b.account, Fill(b.orders[ev.id].symbol, b.orders[ev.id].side, ev.qty, ev.price)))
      && (maker ==> after.account
                      == OnFill(b.account, Fill(b.mmOrders[ev.id].symbol, b.mmOrders[ev.id].side, ev.qty, ev.price)))
      && (!own && !maker ==> after.account == b.account)
      && after.nextId == b.nextId && after.sent == b.sent && after.inProgress == b.inProgress
  {
  }
}
