/** The arbitrage loop's trades as the object that owns the order maps, over the shared symbol manager. */
module EtfArbs {
  import opened Market
  import opened ArbSnapshots
  import opened Arb
  import opened SymbolManagers
  import Accounting
  import Slots

  class EtfArb {
    const sm: SymbolManager
    var orderMap: map<OrderId, Target>
    var mmOrderMap: map<OrderId, Target>
    var nextOrderId: nat
    var arbInProgress: bool
    var blueBidId: OrderId
    var blueAskId: OrderId
    var sent: seq<SentOrder>

    /** Ids already in use are below the counter. */
    ghost predicate Valid()
      reads this, sm, sm.Repr
    {
      sm.Valid() && this !in sm.Repr && forall id | id in orderMap :: id < nextOrderId
    }

    ghost function View(): Arb.Book
      reads this, sm
    {
      Arb.Book(sm.Account, orderMap, mmOrderMap, nextOrderId, arbInProgress, blueBidId, blueAskId, sent)
    }

    constructor (sm: SymbolManager)
      requires sm.Valid()
      ensures Valid() && this.sm == sm
      ensures View() == Arb.Book(sm.Account, map[], map[], 1000, false, 0, 0, [])
    {
      this.sm := sm;
      orderMap, mmOrderMap, nextOrderId, arbInProgress := map[], map[], 1000, false;
      blueBidId, blueAskId, sent := 0, 0, [];
    }

    /** The fill callback. */
    method OnFillEvent(ev: FillEvent)
      requires Valid()
      modifies this, sm.Repr
      ensures Valid() && sm.Table == old(sm.Table) && View() == RouteFill(old(View()), ev)
    {
      if ev.id in orderMap {
        var t := orderMap[ev.id];
        sm.OnFill(t.symbol, t.side, ev.qty, ev.price);
        if ev.closed {
          orderMap := orderMap - {ev.id};
        }
        return;
      }
      if ev.id in mmOrderMap {
        var t := mmOrderMap[ev.id];
        sm.OnFill(t.symbol, t.side, ev.qty, ev.price);
        if ev.closed {
          mmOrderMap := mmOrderMap - {ev.id};
          if ev.id == blueBidId { blueBidId := 0; }
          if ev.id == blueAskId { blueAskId := 0; }
        }
      }
    }

    /** The callbacks of one wait, in the order of their fills. */
    method OnFillEvents(evs: seq<FillEvent>)
      requires Valid()
      modifies this, sm.Repr
      ensures Valid() && sm.Table == old(sm.Table) && View() == Deliver(old(View()), evs)
    {
      var i := 0;
      while i < |evs|
        invariant Valid() && i <= |evs| && sm.Table == old(sm.Table)
        invariant Deliver(View(), evs[i..]) == Deliver(old(View()), evs)
      {
        assert evs[i..][1..] == evs[i + 1..];
        OnFillEvent(evs[i]);
        i := i + 1;
      }
      assert evs[i..] == [];
    }

    method SendOrder(symbol: Symbol, side: Side, qty: int, price: int)
      requires Valid()
      modifies this`orderMap, this`nextOrderId, this`sent
      ensures Valid() && View() == Send(old(View()), symbol, side, qty, price)
      ensures old(nextOrderId !in orderMap)
    {
      var id := nextOrderId;
      nextOrderId := nextOrderId + 1;
      orderMap := orderMap[id := Target(symbol, side)];
      sent := sent + [SentOrder(id, symbol, side, qty, price)];
    }

    /** The fund service made `qty` funds out of our dorms; neither side of it produces fills. */
    method BookCreation(qty: U32, undyPrice: int)
      requires Valid()
      modifies sm.Repr
      ensures Valid() && sm.Table == old(sm.Table)
      ensures sm.Account == SettleCreation(old(sm.Account), qty, Bids(sm.Table), undyPrice)
      ensures View() == old(View()).(account := sm.Account)
    {
      for i := 0 to DORM_COUNT
        invariant Valid() && sm.Table == old(sm.Table) && unchanged(this)
        invariant sm.Account == MoveDorms(old(sm.Account), Sell, qty, Bids(sm.Table), i)
      {
        var bid := sm.BestBidPrice(Dorm(i));
        sm.OnFill(Dorm(i), Sell, qty, bid);
      }
      sm.OnFill(UNDY, Buy, qty, undyPrice);
    }

    /** The fund service took `qty` funds apart. */
    method BookRedemption(qty: U32, undyPrice: int)
      requires Valid()
      modifies sm.Repr
      ensures Valid() && sm.Table == old(sm.Table)
      ensures sm.Account == SettleRedemption(old(sm.Account), qty, Asks(sm.Table), undyPrice)
      ensures View() == old(View()).(account := sm.Account)
    {
      sm.OnFill(UNDY, Sell, qty, undyPrice);
      ghost var start := sm.Account;
      for i := 0 to DORM_COUNT
        invariant Valid() && sm.Table == old(sm.Table) && unchanged(this)
        invariant sm.Account == MoveDorms(start, Buy, qty, Asks(sm.Table), i)
      {
        var ask := sm.BestAskPrice(Dorm(i));
        sm.OnFill(Dorm(i), Buy, qty, ask);
      }
    }

    /** The redemption trade; the asks at settlement are the published ones. */
    method TryRedemptionArb(snap: ArbSnapshot, r: Replies) returns (attempted: bool)
      requires Valid() && |snap.dorms| == DORM_COUNT && r.marks == Asks(sm.Table)
      modifies this, sm.Repr
      ensures Valid() && (View(), attempted) == TryRedemption(old(View()), snap, r)
    {
      if snap.bidMissing || snap.undyAskPrice == 0 { return false; }
      if arbInProgress { return false; }
      var edge := snap.navBid - snap.undyAskPrice;
      if edge <= 0 { return false; }
      var qty := RedemptionQty(snap);
      if qty <= 0 { return false; }
      arbInProgress := true;

      SendOrder(UNDY, Buy, qty, snap.undyAskPrice);
      OnFillEvents(r.whileSending);
      if !r.bought {
        arbInProgress := false;
        return false;
      }
      OnFillEvents(r.whileWaiting);
      if !r.filled {
        arbInProgress := false;
        return true;
      }
      if !r.redeemed { return true; }
      BookRedemption(qty, snap.undyAskPrice);
      SendDormSells(snap, qty);
      OnFillEvents(r.whileSelling);
      return true;
    }

    method SendDormSells(snap: ArbSnapshot, qty: int)
      requires Valid() && |snap.dorms| == DORM_COUNT
      modifies this
      ensures Valid() && View() == SellDorms(old(View()), snap, qty, DORM_COUNT)
      ensures old(forall id | id in orderMap :: id < nextOrderId)
    {
      for i := 0 to DORM_COUNT
        invariant Valid() && View() == SellDorms(old(View()), snap, qty, i)
      {
        SendOrder(Dorm(i), Sell, qty, snap.dorms[i].bidPrice);
      }
    }

    /** Close what one dorm holds, at the published price. */
    method CloseDorm(i: nat)
      requires Valid() && i < DORM_COUNT
      modifies this`orderMap, this`nextOrderId, this`sent
      ensures Valid()
      ensures
        View() == match DormOrder(old(View()), Bids(sm.Table), Asks(sm.Table), i)
                  case NoOrder => old(View())
                  case Order(side, qty, price) => Send(old(View()), Dorm(i), side, qty, price)
    {
      var position := sm.GetPosition(Dorm(i));
      if position > 0 {
        var bid := sm.BestBidPrice(Dorm(i));
        if bid > 0 {
          SendOrder(Dorm(i), Sell, position, bid);
        }
      } else if position <= -8 {
        var ask := sm.BestAskPrice(Dorm(i));
        if ask > 0 {
          SendOrder(Dorm(i), Buy, Abs(position), ask);
        }
      }
    }

    /** Close what the dorms hold, and collect the fills that arrive meanwhile. */
    method UnwindDormLongs(evs: seq<FillEvent>)
      requires Valid()
      modifies this, sm.Repr
      ensures Valid() && sm.Table == old(sm.Table)
      ensures View() == Deliver(SendClosing(old(View()), Bids(sm.Table), Asks(sm.Table), DORM_COUNT), evs)
    {
      for i := 0 to DORM_COUNT
        invariant Valid() && sm.Table == old(sm.Table)
        invariant View() == SendClosing(old(View()), Bids(sm.Table), Asks(sm.Table), i)
      {
        CloseDorm(i);
      }
      OnFillEvents(evs);
    }
  }

  /** The published prices of the ten dorms. */
  function Bids(t: Slots.Table): seq<int>
  {
    [t[3].top.bidPrice, t[4].top.bidPrice, t[5].top.bidPrice, t[6].top.bidPrice, t[7].top.bidPrice,
     t[8].top.bidPrice, t[9].top.bidPrice, t[10].top.bidPrice, t[11].top.bidPrice, t[12].top.bidPrice]
  }

  function Asks(t: Slots.Table): seq<int>
  {
    [t[3].top.askPrice, t[4].top.askPrice, t[5].top.askPrice, t[6].top.askPrice, t[7].top.askPrice,
     t[8].top.askPrice, t[9].top.askPrice, t[10].top.askPrice, t[11].top.askPrice, t[12].top.askPrice]
  }
}
