/** The book as the object the market-data thread updates in place. */
module OrderBooks {
  import opened Market
  import Books

  class OrderBook {
    var symbol: Symbol
    var lastSeqNum: U32
    var orders: Books.Orders
    var bids: Books.Levels
    var asks: Books.Levels

    function State(): Books.Book
      reads this
    {
      Books.Book(symbol, lastSeqNum, orders, bids, asks)
    }

    constructor (symbol: Symbol)
      ensures State() == Books.EmptyBook(symbol)
    {
      this.symbol, lastSeqNum := symbol, 0;
      orders, bids, asks := map[], map[], map[];
    }

    /** Assigning a fresh book over this one. */
    method Clear(symbol: Symbol)
      modifies this
      ensures State() == Books.EmptyBook(symbol)
    {
      this.symbol, lastSeqNum := symbol, 0;
      orders, bids, asks := map[], map[], map[];
    }

    method HandleNewOrder(m: NewOrder)
      modifies this
      ensures State() == Books.HandleNew(old(State()), m)
      ensures old(Books.Agrees(State())) ==> (Books.Agrees(State()) <==> Books.Fits(old(State()), New(m)))
    {
      ghost var before := State();
      if m.side == Buy || m.side == Sell {
        if m.id !in orders && m.quantity != 0 && m.price >= 0 {
          orders := orders[m.id := Books.OrderInfo(m.price, m.quantity, m.side, m.symbol)];
          AddToPriceLevel(m.side, m.price, m.quantity);
          lastSeqNum := m.seqNum;
        }
      }
      if Books.Agrees(before) {
        Books.NewAgreesIff(before, m);
      }
    }

    method HandleDeleteOrder(m: DeleteOrder)
      modifies this
      ensures State() == Books.HandleDelete(old(State()), m)
      ensures old(Books.Agrees(State())) ==> Books.Agrees(State())
    {
      ghost var before := State();
      if m.id in orders && orders[m.id].symbol == symbol {
        var info := orders[m.id];
        RemoveFromPriceLevel(info.side, info.price, info.quantity);
        orders := orders - {m.id};
        lastSeqNum := m.seqNum;
      }
      if Books.Agrees(before) {
        Books.DeleteAgrees(before, m);
      }
    }

    method HandleModifyOrder(m: ModifyOrder)
      modifies this
      ensures State() == Books.HandleModify(old(State()), m)
      ensures old(Books.Agrees(State())) ==> (Books.Agrees(State()) <==> Books.Fits(old(State()), Modify(m)))
    {
      ghost var before := State();
      if m.id in orders && orders[m.id].symbol == symbol {
        var info := orders[m.id];
        RemoveFromPriceLevel(info.side, info.price, info.quantity);
        info := info.(price := m.price, quantity := m.quantity, side := m.side);
        orders := orders[m.id := info];
        AddToPriceLevel(info.side, info.price, info.quantity);
        lastSeqNum := m.seqNum;
      }
      if Books.Agrees(before) {
        Books.ModifyAgreesIff(before, m);
      }
    }

    method HandleTrade(m: Trade)
      modifies this
      ensures State() == Books.HandleTrade(old(State()), m)
      ensures old(Books.Agrees(State())) ==> Books.Agrees(State())
    {
      ghost var before := State();
      if m.id in orders && orders[m.id].symbol == symbol {
        var info := orders[m.id];
        if m.quantity > info.quantity {
          RemoveFromPriceLevel(info.side, info.price, info.quantity);
          orders := orders - {m.id};
        } else {
          RemoveFromPriceLevel(info.side, info.price, m.quantity);
          info := info.(quantity := info.quantity - m.quantity);
          if info.quantity == 0 {
            orders := orders - {m.id};
          } else {
            orders := orders[m.id := info];
            assert orders == Books.Reduced(before.orders, m.id, m.quantity);
          }
          lastSeqNum := m.seqNum;
        }
      }
      assert State() == Books.HandleTrade(before, m);
      if Books.Agrees(before) {
        Books.TradeAgrees(before, m);
      }
    }

    method AddToPriceLevel(side: Side, price: I32, quantity: U32)
      modifies this`bids, this`asks
      ensures State() == Books.AddToPriceLevel(old(State()), side, price, quantity)
    {
      if side == Buy {
        var level := if price in bids then bids[price] else 0;
        bids := bids[price := WrapU32(level + quantity)];
      } else {
        var level := if price in asks then asks[price] else 0;
        asks := asks[price := WrapU32(level + quantity)];
      }
    }

    method RemoveFromPriceLevel(side: Side, price: I32, quantity: U32)
      modifies this`bids, this`asks
      ensures State() == Books.RemoveFromPriceLevel(old(State()), side, price, quantity)
    {
      if side == Buy {
        if price in bids {
          if bids[price] < quantity {
            bids := bids - {price};
            return;
          }
          bids := bids[price := bids[price] - quantity];
          if bids[price] == 0 {
            bids := bids - {price};
          }
        }
      } else {
        if price in asks {
          if asks[price] < quantity {
            asks := asks - {price};
            return;
          }
          asks := asks[price := asks[price] - quantity];
          if asks[price] == 0 {
            asks := asks - {price};
          }
        }
      }
    }

    /** The front of each side; in an agreeing book, what a scan of its orders finds. */
    method Front() returns (top: Books.Top)
      ensures top == Books.TopOf(State())
      ensures Books.Agrees(State()) ==>
                && Books.IsFront(orders, true, top.bidPrice, top.bidQty)
                && Books.IsFront(orders, false, top.askPrice, top.askQty)
    {
      top := Books.TopOf(Books.Book(symbol, lastSeqNum, orders, bids, asks));
      if Books.Agrees(State()) {
        Books.TopIsNaive(State());
      }
    }
  }
}
