/** What each message does to the resting orders, and what a run of messages does to the quantity at rest. */
module BookEffects {
  import opened Market
  import opened Sums
  import opened Books

  /** The book takes the new order. */
  predicate Takes(b: Book, m: NewOrder)
  {
    (m.side == Buy || m.side == Sell) && m.id !in b.orders && 0 < m.quantity && 0 <= m.price
  }

  lemma NewEffect(b: Book, m: NewOrder)
    ensures
      var after := HandleNew(b, m);
      if Takes(b, m) then
        && after.orders == b.orders[m.id := OrderInfo(m.price, m.quantity, m.side, m.symbol)]
        && after.lastSeqNum == m.seqNum && after.symbol == b.symbol
      else after == b
  {
  }

  lemma DeleteEffect(b: Book, m: DeleteOrder)
    ensures
      var after := HandleDelete(b, m);
      if m.id in b.orders && b.orders[m.id].symbol == b.symbol then
        && m.id !in after.orders
        && (forall id | id != m.id ::
              (id in after.orders <==> id in b.orders) && (id in b.orders ==> after.orders[id] == b.orders[id]))
        && after.lastSeqNum == m.seqNum && after.symbol == b.symbol
      else after == b
  {
  }

  /** Price, quantity and side are the message's; the symbol stays. */
  lemma ModifyEffect(b: Book, m: ModifyOrder)
    ensures
      var after := HandleModify(b, m);
      if m.id in b.orders && b.orders[m.id].symbol == b.symbol then
        && m.id in after.orders
        && after.orders[m.id] == OrderInfo(m.price, m.quantity, m.side, b.orders[m.id].symbol)
        && (forall id | id != m.id ::
              (id in after.orders <==> id in b.orders) && (id in b.orders ==> after.orders[id] == b.orders[id]))
        && after.lastSeqNum == m.seqNum && after.symbol == b.symbol
      else after == b
  {
  }

  /** A trade takes the smaller of its own quantity and what rests. The order is gone exactly when nothing is left of
      it; otherwise it rests with the difference at its old price, side and symbol. No other order changes. Only a
      trade of more than rests does not count as the last message. */
  lemma TradeEffect(b: Book, m: Trade)
    ensures
      var after := HandleTrade(b, m);
      if m.id in b.orders && b.orders[m.id].symbol == b.symbol then
        var was := b.orders[m.id];
        && (m.id !in after.orders <==> was.quantity <= m.quantity)
        && (m.id in after.orders ==>
              && after.orders[m.id].quantity == was.quantity - m.quantity && after.orders[m.id].price == was.price
              && after.orders[m.id].side == was.side && after.orders[m.id].symbol == was.symbol)
        && (forall id | id != m.id ::
              (id in after.orders <==> id in b.orders) && (id in b.orders ==> after.orders[id] == b.orders[id]))
        && after.lastSeqNum == (if m.quantity <= was.quantity then m.seqNum else b.lastSeqNum)
        && after.symbol == b.symbol
      else after == b
  {
  }

  /** The order's level falls by what was taken, and no other level of either side moves. */
  lemma TradeLevels(b: Book, m: Trade, bid: bool, price: int)
    requires Agrees(b) && m.id in b.orders && b.orders[m.id].symbol == b.symbol
    ensures
      var after, was := HandleTrade(b, m), b.orders[m.id];
      var taken := if bid == (was.side == Buy) && price == was.price then Min(m.quantity, was.quantity) else 0;
      var before := LevelSum(b.orders, bid, price);
      && LevelSum(after.orders, bid, price) == before - taken
      && LevelIs(if bid then after.bids else after.asks, price, before - taken)
  {
    var was := b.orders[m.id];
    TradeAgrees(b, m);
    AgreesAt(HandleTrade(b, m), price);
    if m.quantity < was.quantity {
      LevelSumReduce(b.orders, m.id, m.quantity, bid, price);
    } else {
      LevelSumRemove(b.orders, m.id, bid, price);
    }
  }

  // ---- conservation

  function Quantities(orders: Orders): map<OrderId, int>
  {
    map id | id in orders :: orders[id].quantity
  }

  /** All that rests in a book. */
  ghost function AtRest(b: Book): int
  {
    Total(Quantities(b.orders))
  }

  /** What comes in, what is traded, and what is taken back. */
  datatype Flow = Flow(entered: int, traded: int, withdrawn: int)

  function Plus(x: Flow, y: Flow): Flow
  {
    Flow(x.entered + y.entered, x.traded + y.traded, x.withdrawn + y.withdrawn)
  }

  /** What a message moves; a modify takes the old quantity back and puts the new one in. */
  function FlowOf(b: Book, m: BookMsg): Flow
  {
    match m
    case New(n) => if Takes(b, n) then Flow(n.quantity, 0, 0) else Flow(0, 0, 0)
    case _ =>
      if m.Id() !in b.orders || b.orders[m.Id()].symbol != b.symbol then Flow(0, 0, 0)
      else
        var rests := b.orders[m.Id()].quantity;
        match m
        case Delete(_) => Flow(0, 0, rests)
        case Modify(c) => Flow(c.quantity, 0, rests)
        case Executed(t) => Flow(0, Min(t.quantity, rests), 0)
  }

  function FlowAll(b: Book, msgs: seq<BookMsg>): Flow
    decreases |msgs|
  {
    if msgs == [] then Flow(0, 0, 0) else Plus(FlowOf(b, msgs[0]), FlowAll(Apply(b, msgs[0]), msgs[1..]))
  }

  lemma PutQuantity(orders: Orders, id: OrderId, info: OrderInfo)
    ensures Total(Quantities(orders[id := info])) == Total(Quantities(orders - {id})) + info.quantity
  {
    TotalPut(Quantities(orders - {id}), id, info.quantity);
    assert Quantities(orders[id := info]) == Quantities(orders - {id})[id := info.quantity];
    assert Quantities(orders - {id}) - {id} == Quantities(orders - {id});
  }

  lemma TakeQuantity(orders: Orders, id: OrderId)
    requires id in orders
    ensures Total(Quantities(orders - {id})) == Total(Quantities(orders)) - orders[id].quantity
  {
    TotalSplit(Quantities(orders), id);
    assert Quantities(orders) - {id} == Quantities(orders - {id});
  }

  lemma TradeFlows(b: Book, m: Trade)
    requires m.id in b.orders && b.orders[m.id].symbol == b.symbol
    ensures AtRest(HandleTrade(b, m)) == AtRest(b) - Min(m.quantity, b.orders[m.id].quantity)
  {
    var info := b.orders[m.id];
    TakeQuantity(b.orders, m.id);
    if m.quantity < info.quantity {
      PutQuantity(b.orders, m.id, info.(quantity := info.quantity - m.quantity));
    }
  }

  lemma ApplyFlows(b: Book, m: BookMsg)
    ensures
      var f := FlowOf(b, m);
      AtRest(Apply(b, m)) == AtRest(b) + f.entered - f.traded - f.withdrawn
  {
    if m.New? {
      if Takes(b, m.newOrder) {
        var n := m.newOrder;
        PutQuantity(b.orders, n.id, OrderInfo(n.price, n.quantity, n.side, n.symbol));
        assert b.orders - {n.id} == b.orders;
      }
    } else if m.Id() in b.orders && b.orders[m.Id()].symbol == b.symbol {
      TakeQuantity(b.orders, m.Id());
      match m {
        case Delete(_) =>
        case Modify(c) => PutQuantity(b.orders, c.id, OrderInfo(c.price, c.quantity, c.side, b.symbol));
        case Executed(t) => TradeFlows(b, t);
      }
    }
  }

  /** Nothing at rest appears or disappears: over any run, what rests is what rested before, plus all that came in, less
      all that was traded, less all that was taken back. */
  lemma {:induction false} QuantityConserved(b: Book, msgs: seq<BookMsg>)
    ensures
      var f := FlowAll(b, msgs);
      AtRest(Run(b, msgs)) == AtRest(b) + f.entered - f.traded - f.withdrawn
    decreases |msgs|
  {
    if msgs != [] {
      ApplyFlows(b, msgs[0]);
      QuantityConserved(Apply(b, msgs[0]), msgs[1..]);
    }
  }

  // ---- the fate of one order

  datatype Order = Absent | At(info: OrderInfo)

  function OrderIn(b: Book, id: OrderId): Order
  {
    if id in b.orders then At(b.orders[id]) else Absent
  }

  /** One order under one message of its own. */
  function Meets(o: Order, symbol: Symbol, m: BookMsg): Order
  {
    match (o, m)
    case (Absent, New(n)) =>
      if n.side.Unknown? || n.quantity == 0 || n.price < 0 then Absent
      else At(OrderInfo(n.price, n.quantity, n.side, n.symbol))
    case (At(info), Delete(_)) => if info.symbol == symbol then Absent else o
    case (At(info), Modify(c)) =>
      if info.symbol == symbol then At(OrderInfo(c.price, c.quantity, c.side, info.symbol)) else o
    case (At(info), Executed(t)) =>
      if info.symbol != symbol then o
      else if t.quantity < info.quantity then At(info.(quantity := info.quantity - t.quantity))
      else Absent
    case _ => o
  }

  /** One order over a run, of which only its own messages concern it. */
  function Fate(o: Order, id: OrderId, symbol: Symbol, msgs: seq<BookMsg>): Order
    decreases |msgs|
  {
    if msgs == [] then o
    else Fate(if msgs[0].Id() == id then Meets(o, symbol, msgs[0]) else o, id, symbol, msgs[1..])
  }

  lemma ApplyMeets(b: Book, m: BookMsg, id: OrderId)
    ensures Apply(b, m).symbol == b.symbol
    ensures OrderIn(Apply(b, m), id) == if m.Id() == id then Meets(OrderIn(b, id), b.symbol, m) else OrderIn(b, id)
  {
    match m {
      case New(n) => NewEffect(b, n);
      case Delete(d) => DeleteEffect(b, d);
      case Modify(c) => ModifyEffect(b, c);
      case Executed(t) => TradeEffect(b, t);
    }
  }

  /** What a run leaves of an order depends on its own messages alone, whatever happens to the rest of the book. */
  lemma {:induction false} FateIsOwn(b: Book, msgs: seq<BookMsg>, id: OrderId)
    ensures OrderIn(Run(b, msgs), id) == Fate(OrderIn(b, id), id, b.symbol, msgs)
    decreases |msgs|
  {
    if msgs != [] {
      ApplyMeets(b, msgs[0], id);
      FateIsOwn(Apply(b, msgs[0]), msgs[1..], id);
    }
  }
}
