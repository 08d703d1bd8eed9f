/**
 The order book as a value: the order map, the two price-level indices, and the four handlers.
 A level index agrees with the orders when it holds exactly the prices with a positive summed
 quantity, each with that sum.
 */
module Books {
  import opened Market
  import opened Sums

  datatype OrderInfo = OrderInfo(price: I32, quantity: U32, side: Side, symbol: Symbol)

  type Orders = map<OrderId, OrderInfo>
  type Levels = map<int, U32>

  datatype Book = Book(symbol: Symbol, lastSeqNum: U32, orders: Orders, bids: Levels, asks: Levels)

  function EmptyBook(symbol: Symbol): Book
  {
    Book(symbol, 0, map[], map[], map[])
  }

  // ---- price levels

  function AddLevel(levels: Levels, price: int, quantity: U32): Levels
  {
    levels[price := WrapU32((if price in levels then levels[price] else 0) + quantity)]
  }

  function RemoveLevel(levels: Levels, price: int, quantity: U32): Levels
  {
    if price !in levels then levels
    else if levels[price] < quantity then levels - {price}
    else if levels[price] == quantity then levels - {price}
    else levels[price := levels[price] - quantity]
  }

  function AddToPriceLevel(b: Book, side: Side, price: int, quantity: U32): Book
  {
    if side == Buy then b.(bids := AddLevel(b.bids, price, quantity))
    else b.(asks := AddLevel(b.asks, price, quantity))
  }

  function RemoveFromPriceLevel(b: Book, side: Side, price: int, quantity: U32): Book
  {
    if side == Buy then b.(bids := RemoveLevel(b.bids, price, quantity))
    else b.(asks := RemoveLevel(b.asks, price, quantity))
  }

  // ---- handlers

  predicate Rejected(b: Book, m: NewOrder)
  {
    (m.side != Buy && m.side != Sell) || m.id in b.orders || m.quantity == 0 || m.price < 0
  }

  function HandleNew(b: Book, m: NewOrder): Book
  {
    if Rejected(b, m) then b
    else
      var info := OrderInfo(m.price, m.quantity, m.side, m.symbol);
      AddToPriceLevel(b.(orders := b.orders[m.id := info]), m.side, m.price, m.quantity).(lastSeqNum := m.seqNum)
  }

  /** The book holds the order, and the order is one of its own symbol. */
  predicate Owns(b: Book, id: OrderId)
  {
    id in b.orders && b.orders[id].symbol == b.symbol
  }

  function HandleDelete(b: Book, m: DeleteOrder): Book
  {
    if !Owns(b, m.id) then b
    else
      var info := b.orders[m.id];
      RemoveFromPriceLevel(b, info.side, info.price, info.quantity)
        .(orders := b.orders - {m.id}, lastSeqNum := m.seqNum)
  }

  function HandleModify(b: Book, m: ModifyOrder): Book
  {
    if !Owns(b, m.id) then b
    else
      var info := b.orders[m.id];
      var removed := RemoveFromPriceLevel(b, info.side, info.price, info.quantity);
      var changed := info.(price := m.price, quantity := m.quantity, side := m.side);
      AddToPriceLevel(removed.(orders := b.orders[m.id := changed]), m.side, m.price, m.quantity)
        .(lastSeqNum := m.seqNum)
  }

  function Reduced(orders: Orders, id: OrderId, quantity: U32): Orders
    requires id in orders && quantity <= orders[id].quantity
  {
    orders[id := orders[id].(quantity := orders[id].quantity - quantity)]
  }

  function HandleTrade(b: Book, m: Trade): Book
  {
    if !Owns(b, m.id) then b
    else
      var info := b.orders[m.id];
      if m.quantity > info.quantity then
        RemoveFromPriceLevel(b, info.side, info.price, info.quantity).(orders := b.orders - {m.id})
      else
        RemoveFromPriceLevel(b, info.side, info.price, m.quantity)
          .(orders := if m.quantity == info.quantity then b.orders - {m.id} else Reduced(b.orders, m.id, m.quantity),
            lastSeqNum := m.seqNum)
  }

  function Apply(b: Book, m: BookMsg): Book
  {
    match m
    case New(n) => HandleNew(b, n)
    case Delete(d) => HandleDelete(b, d)
    case Modify(c) => HandleModify(b, c)
    case Executed(t) => HandleTrade(b, t)
  }

  function Run(b: Book, msgs: seq<BookMsg>): Book
    decreases |msgs|
  {
    if msgs == [] then b else Run(Apply(b, msgs[0]), msgs[1..])
  }

  // ---- the recomputation from the orders

  predicate OnSide(info: OrderInfo, bid: bool)
  {
    (info.side == Buy) == bid
  }

  /** The quantities resting on one side at one price. Every side that is not a buy rests among the asks. */
  function Resting(orders: Orders, bid: bool, price: int): map<OrderId, int>
  {
    map id | id in orders && OnSide(orders[id], bid) && orders[id].price == price :: orders[id].quantity
  }

  ghost function LevelSum(orders: Orders, bid: bool, price: int): int
  {
    Total(Resting(orders, bid, price))
  }

  /** The recomputed index: what rests on a side (bids for true) at a price. */
  type Index = (bool, int) -> int

  ghost function Recomputed(orders: Orders): Index
  {
    (bid, price) => LevelSum(orders, bid, price)
  }

  /** The level holds the sum, and is there only if the sum is positive. */
  ghost predicate LevelIs(levels: Levels, price: int, sum: int)
  {
    if price in levels then 0 < levels[price] == sum else sum == 0
  }

  ghost predicate Matches(bids: Levels, asks: Levels, index: Index)
  {
    forall price: int :: LevelIs(bids, price, index(true, price)) && LevelIs(asks, price, index(false, price))
  }

  /** Both level indices are what the orders sum to. */
  ghost predicate Agrees(b: Book)
  {
    Matches(b.bids, b.asks, Recomputed(b.orders))
  }

  // ---- how the sums move

  /** What one order contributes to a level. */
  function Share(info: OrderInfo, bid: bool, price: int): int
  {
    if OnSide(info, bid) && info.price == price then info.quantity else 0
  }

  function ShareOf(orders: Orders, id: OrderId, bid: bool, price: int): int
  {
    if id in orders then Share(orders[id], bid, price) else 0
  }

  lemma LevelSumRemove(orders: Orders, id: OrderId, bid: bool, price: int)
    ensures LevelSum(orders - {id}, bid, price) == LevelSum(orders, bid, price) - ShareOf(orders, id, bid, price)
  {
    var all := Resting(orders, bid, price);
    if id in all {
      TotalSplit(all, id);
    }
    assert Resting(orders - {id}, bid, price) == all - {id};
    assert id !in all ==> all - {id} == all;
  }

  lemma LevelSumPut(orders: Orders, id: OrderId, info: OrderInfo, bid: bool, price: int)
    ensures LevelSum(orders[id := info], bid, price)
         == LevelSum(orders - {id}, bid, price) + Share(info, bid, price)
  {
    var all := Resting(orders[id := info], bid, price);
    if id in all {
      TotalSplit(all, id);
    }
    assert Resting(orders - {id}, bid, price) == all - {id};
    assert id !in all ==> all - {id} == all;
  }

  lemma LevelSumReduce(orders: Orders, id: OrderId, quantity: U32, bid: bool, price: int)
    requires id in orders && quantity <= orders[id].quantity
    ensures
      var info := orders[id];
      LevelSum(Reduced(orders, id, quantity), bid, price)
        == LevelSum(orders, bid, price) - (if bid == (info.side == Buy) && price == info.price then quantity else 0)
  {
    var info := orders[id];
    LevelSumPut(orders, id, info.(quantity := info.quantity - quantity), bid, price);
    LevelSumRemove(orders, id, bid, price);
  }

  lemma LevelSumBounds(orders: Orders, bid: bool, price: int)
    ensures 0 <= LevelSum(orders, bid, price)
    ensures forall id :: ShareOf(orders, id, bid, price) <= LevelSum(orders, bid, price)
  {
    TotalNonNegative(Resting(orders, bid, price));
    forall id
      ensures ShareOf(orders, id, bid, price) <= LevelSum(orders, bid, price)
    {
      var at := Resting(orders, bid, price);
      assert id in at <==> id in orders && OnSide(orders[id], bid) && orders[id].price == price;
    }
  }

  lemma MatchAt(bids: Levels, asks: Levels, index: Index, price: int)
    requires Matches(bids, asks, index)
    ensures LevelIs(bids, price, index(true, price)) && LevelIs(asks, price, index(false, price))
  {
  }

  lemma AgreesAt(b: Book, price: int)
    requires Agrees(b)
    ensures LevelIs(b.bids, price, LevelSum(b.orders, true, price))
    ensures LevelIs(b.asks, price, LevelSum(b.orders, false, price))
  {
    MatchAt(b.bids, b.asks, Recomputed(b.orders), price);
  }

  /** Two books that agree and hold the same orders have the same levels. */
  lemma AgreementDeterminesLevels(a: Book, b: Book)
    requires Agrees(a) && Agrees(b) && a.orders == b.orders
    ensures a.bids == b.bids && a.asks == b.asks
  {
    forall price: int
      ensures (price in a.bids <==> price in b.bids) && (price in a.asks <==> price in b.asks)
      ensures price in a.bids ==> a.bids[price] == b.bids[price]
      ensures price in a.asks ==> a.asks[price] == b.asks[price]
    {
      AgreesAt(a, price);
      AgreesAt(b, price);
    }
    assert a.bids.Keys == b.bids.Keys && a.asks.Keys == b.asks.Keys;
  }

  /** In a book that agrees, no handler ever finds less at a level than it has to take away. */
  lemma NoShortfall(b: Book, id: OrderId)
    requires Agrees(b) && id in b.orders
    ensures
      var info := b.orders[id];
      var levels := if info.side == Buy then b.bids else b.asks;
      if info.price in levels then info.quantity <= levels[info.price] else info.quantity == 0
  {
    var info := b.orders[id];
    AgreesAt(b, info.price);
    LevelSumBounds(b.orders, info.side == Buy, info.price);
    assert ShareOf(b.orders, id, info.side == Buy, info.price) == info.quantity;
  }

  // ---- one handler on one side

  /** `more` is `less` with `quantity` added on one side at one price. */
  ghost predicate Adds(less: Index, more: Index, bid: bool, at: int, quantity: int)
  {
    forall side: bool, price: int ::
      more(side, price) == less(side, price) + (if side == bid && price == at then quantity else 0)
  }

  lemma AddsAt(less: Index, more: Index, bid: bool, at: int, quantity: int, side: bool, price: int)
    requires Adds(less, more, bid, at, quantity)
    ensures more(side, price) == less(side, price) + (if side == bid && price == at then quantity else 0)
  {
  }

  /** Taking a share out of its level follows the index without that share. */
  lemma RemoveMatches(b: Book, before: Index, after: Index, side: Side, at: int, quantity: U32)
    requires Matches(b.bids, b.asks, before)
    requires Adds(after, before, side == Buy, at, quantity) && 0 <= after(side == Buy, at)
    ensures var r := RemoveFromPriceLevel(b, side, at, quantity); Matches(r.bids, r.asks, after)
  {
    var r := RemoveFromPriceLevel(b, side, at, quantity);
    forall price: int
      ensures LevelIs(r.bids, price, after(true, price)) && LevelIs(r.asks, price, after(false, price))
    {
      MatchAt(b.bids, b.asks, before, price);
      AddsAt(after, before, side == Buy, at, quantity, true, price);
      AddsAt(after, before, side == Buy, at, quantity, false, price);
    }
  }

  /** What a level holds after an addition, past the end of 32 bits from 0 again. */
  lemma AddLevelValue(levels: Levels, at: int, quantity: U32)
    ensures
      var sum := (if at in levels then levels[at] else 0) + quantity;
      var after := AddLevel(levels, at, quantity);
      && at in after && after[at] == sum - (if sum >= 0x1_0000_0000 then 0x1_0000_0000 else 0)
      && forall p | p != at :: (p in after <==> p in levels) && (p in levels ==> after[p] == levels[p])
  {
  }

  /** What is left of a level after a removal: nothing, if no more than that was there. */
  lemma RemoveLevelValue(levels: Levels, at: int, quantity: U32)
    ensures
      var after := RemoveLevel(levels, at, quantity);
      && (at in after <==> at in levels && quantity < levels[at])
      && (at in after ==> after[at] == levels[at] - quantity)
      && forall p | p != at :: (p in after <==> p in levels) && (p in levels ==> after[p] == levels[p])
  {
  }

  lemma AddLevelIsIff(levels: Levels, at: int, quantity: U32, price: int, sum: int)
    requires LevelIs(levels, price, sum)
    ensures LevelIs(AddLevel(levels, at, quantity), price, sum + if price == at then quantity else 0)
       <==> (price == at ==> 0 < sum + quantity < TWO_32)
  {
  }

  /** Adding keeps the match exactly when the 32-bit sum does not wrap and does not create an empty level. */
  lemma AddMatchesIff(b: Book, before: Index, after: Index, side: Side, at: int, quantity: U32)
    requires Matches(b.bids, b.asks, before) && Adds(before, after, side == Buy, at, quantity)
    ensures
      var r := AddToPriceLevel(b, side, at, quantity);
      Matches(r.bids, r.asks, after) <==> 0 < before(side == Buy, at) + quantity < TWO_32
  {
    var r := AddToPriceLevel(b, side, at, quantity);
    forall price: int
      ensures LevelIs(r.bids, price, after(true, price)) && LevelIs(r.asks, price, after(false, price))
         <==> (price == at ==> 0 < before(side == Buy, at) + quantity < TWO_32)
    {
      MatchAt(b.bids, b.asks, before, price);
      AddsAt(before, after, side == Buy, at, quantity, true, price);
      AddsAt(before, after, side == Buy, at, quantity, false, price);
      AddLevelIsIff(if side == Buy then b.bids else b.asks, at, quantity, price, before(side == Buy, price));
    }
    if Matches(r.bids, r.asks, after) {
      MatchAt(r.bids, r.asks, after, at);
    }
  }

  // how the recomputed index moves when an order leaves, joins, or shrinks

  lemma IndexRemove(orders: Orders, id: OrderId)
    requires id in orders
    ensures
      Adds(Recomputed(orders - {id}), Recomputed(orders), orders[id].side == Buy, orders[id].price, orders[id].quantity)
  {
    forall side: bool, price: int
      ensures LevelSum(orders - {id}, side, price) == LevelSum(orders, side, price) - ShareOf(orders, id, side, price)
    {
      LevelSumRemove(orders, id, side, price);
    }
  }

  lemma IndexPut(orders: Orders, id: OrderId, info: OrderInfo)
    ensures Adds(Recomputed(orders - {id}), Recomputed(orders[id := info]), info.side == Buy, info.price, info.quantity)
  {
    forall side: bool, price: int
      ensures LevelSum(orders[id := info], side, price)
           == LevelSum(orders - {id}, side, price) + Share(info, side, price)
    {
      LevelSumPut(orders, id, info, side, price);
    }
  }

  lemma IndexReduce(orders: Orders, id: OrderId, quantity: U32)
    requires id in orders && quantity <= orders[id].quantity
    ensures
      Adds(Recomputed(Reduced(orders, id, quantity)), Recomputed(orders),
           orders[id].side == Buy, orders[id].price, quantity)
  {
    forall side: bool, price: int
      ensures LevelSum(Reduced(orders, id, quantity), side, price) == LevelSum(orders, side, price)
           - (if side == (orders[id].side == Buy) && price == orders[id].price then quantity else 0)
    {
      LevelSumReduce(orders, id, quantity, side, price);
    }
  }

  // ---- the handlers

  /** A message that leaves the indices right: its added quantity fits and is not an empty level. */
  ghost predicate Fits(b: Book, m: BookMsg)
  {
    match m
    case New(n) => !Rejected(b, n) ==> LevelSum(b.orders, n.side == Buy, n.price) + n.quantity < TWO_32
    case Modify(c) =>
      Owns(b, c.id) ==> 0 < LevelSum(b.orders - {c.id}, c.side == Buy, c.price) + c.quantity < TWO_32
    case Delete(_) => true
    case Executed(_) => true
  }

  lemma NewAgreesIff(b: Book, m: NewOrder)
    requires Agrees(b)
    ensures Agrees(HandleNew(b, m)) <==> Fits(b, New(m))
  {
    if !Rejected(b, m) {
      var info := OrderInfo(m.price, m.quantity, m.side, m.symbol);
      assert b.orders - {m.id} == b.orders;
      LevelSumBounds(b.orders, m.side == Buy, m.price);
      PutAgreesIff(b, b.orders, m.id, info);
    }
  }

  /** `b` matches once the order under `id` is left out; putting `info` there matches exactly when it fits. */
  lemma PutAgreesIff(b: Book, orders: Orders, id: OrderId, info: OrderInfo)
    requires Matches(b.bids, b.asks, Recomputed(orders - {id}))
    ensures
      var r := AddToPriceLevel(b, info.side, info.price, info.quantity);
      Matches(r.bids, r.asks, Recomputed(orders[id := info]))
      <==> 0 < LevelSum(orders - {id}, info.side == Buy, info.price) + info.quantity < TWO_32
  {
    IndexPut(orders, id, info);
    AddMatchesIff(b, Recomputed(orders - {id}), Recomputed(orders[id := info]), info.side, info.price, info.quantity);
  }

  /** The order leaves the book: both sides still agree. */
  lemma TakeOutAgrees(b: Book, id: OrderId)
    requires Agrees(b) && id in b.orders
    ensures
      var info := b.orders[id];
      var r := RemoveFromPriceLevel(b, info.side, info.price, info.quantity);
      Matches(r.bids, r.asks, Recomputed(b.orders - {id}))
  {
    var info := b.orders[id];
    IndexRemove(b.orders, id);
    LevelSumBounds(b.orders - {id}, info.side == Buy, info.price);
    RemoveMatches(b, Recomputed(b.orders), Recomputed(b.orders - {id}), info.side, info.price, info.quantity);
  }

  lemma DeleteAgrees(b: Book, m: DeleteOrder)
    requires Agrees(b)
    ensures Agrees(HandleDelete(b, m))
  {
    if Owns(b, m.id) {
      TakeOutAgrees(b, m.id);
    }
  }

  lemma ModifyAgreesIff(b: Book, m: ModifyOrder)
    requires Agrees(b)
    ensures Agrees(HandleModify(b, m)) <==> Fits(b, Modify(m))
  {
    if Owns(b, m.id) {
      var info := b.orders[m.id];
      TakeOutAgrees(b, m.id);
      PutAgreesIff(RemoveFromPriceLevel(b, info.side, info.price, info.quantity), b.orders, m.id,
                   info.(price := m.price, quantity := m.quantity, side := m.side));
    }
  }

  lemma TradeAgrees(b: Book, m: Trade)
    requires Agrees(b)
    ensures Agrees(HandleTrade(b, m))
  {
    if Owns(b, m.id) {
      var info := b.orders[m.id];
      if m.quantity >= info.quantity {
        TakeOutAgrees(b, m.id);
      } else {
        var orders' := Reduced(b.orders, m.id, m.quantity);
        IndexReduce(b.orders, m.id, m.quantity);
        LevelSumBounds(orders', info.side == Buy, info.price);
        RemoveMatches(b, Recomputed(b.orders), Recomputed(orders'), info.side, info.price, m.quantity);
      }
    }
  }

  /** From an agreeing book, a message keeps the indices right if and only if it fits. */
  lemma ApplyAgreesIff(b: Book, m: BookMsg)
    requires Agrees(b)
    ensures Agrees(Apply(b, m)) <==> Fits(b, m)
  {
    match m
    case New(n) => NewAgreesIff(b, n);
    case Delete(d) => DeleteAgrees(b, d);
    case Modify(c) => ModifyAgreesIff(b, c);
    case Executed(t) => TradeAgrees(b, t);
  }

  ghost predicate RunFits(b: Book, msgs: seq<BookMsg>)
    decreases |msgs|
  {
    msgs != [] ==> Fits(b, msgs[0]) && RunFits(Apply(b, msgs[0]), msgs[1..])
  }

  /** After any run of fitting messages from an agreeing book, every level is the sum of its orders. */
  lemma {:induction false} RunAgrees(b: Book, msgs: seq<BookMsg>)
    requires Agrees(b) && RunFits(b, msgs)
    ensures Agrees(Run(b, msgs))
    decreases |msgs|
  {
    if msgs != [] {
      ApplyAgreesIff(b, msgs[0]);
      RunAgrees(Apply(b, msgs[0]), msgs[1..]);
    }
  }

  lemma EmptyAgrees(symbol: Symbol)
    ensures Agrees(EmptyBook(symbol))
  {
    forall bid: bool, p: int
      ensures LevelSum(map[], bid, p) == 0
    {
      assert Resting(map[], bid, p) == map[];
    }
  }

  // ---- best prices

  ghost function GreatestMember(s: set<int>): (m: int)
    requires s != {}
    ensures m in s && forall x | x in s :: x <= m
    decreases |s|
  {
    var e := Member(s);
    var rest := s - {e};
    assert forall x | x in s :: x == e || x in rest;
    if rest == {} then e
    else
      var n := GreatestMember(rest);
      if n <= e then e else n
  }

  ghost function LeastMember(s: set<int>): (m: int)
    requires s != {}
    ensures m in s && forall x | x in s :: m <= x
    decreases |s|
  {
    var e := Member(s);
    var rest := s - {e};
    assert forall x | x in s :: x == e || x in rest;
    if rest == {} then e
    else
      var n := LeastMember(rest);
      if e <= n then e else n
  }

  /** First key of the bid index, which is kept in descending order. */
  function Greatest(s: set<int>): (m: int)
    requires s != {}
    ensures m in s && forall x | x in s :: x <= m
  {
    assert GreatestMember(s) in s;
    var m :| m in s && forall x | x in s :: x <= m;
    m
  }

  /** First key of the ask index, which is kept in ascending order. */
  function Least(s: set<int>): (m: int)
    requires s != {}
    ensures m in s && forall x | x in s :: m <= x
  {
    assert LeastMember(s) in s;
    var m :| m in s && forall x | x in s :: m <= x;
    m
  }

  /** The four values a slot publishes. */
  datatype Top = Top(bidPrice: int, bidQty: U32, askPrice: int, askQty: U32)

  const NO_TOP := Top(0, 0, 0, 0)

  function BestBidPrice(b: Book): int { if b.bids == map[] then 0 else Greatest(b.bids.Keys) }
  function BestBidQty(b: Book): U32 { if b.bids == map[] then 0 else b.bids[Greatest(b.bids.Keys)] }
  function BestAskPrice(b: Book): int { if b.asks == map[] then 0 else Least(b.asks.Keys) }
  function BestAskQty(b: Book): U32 { if b.asks == map[] then 0 else b.asks[Least(b.asks.Keys)] }

  function TopOf(b: Book): Top
  {
    Top(BestBidPrice(b), BestBidQty(b), BestAskPrice(b), BestAskQty(b))
  }

  predicate IsCrossed(b: Book)
  {
    b.bids != map[] && b.asks != map[] && Greatest(b.bids.Keys) >= Least(b.asks.Keys)
  }

  /** The order rests on the given side with something left. */
  predicate Live(orders: Orders, id: OrderId, bid: bool)
  {
    id in orders && OnSide(orders[id], bid) && 0 < orders[id].quantity
  }

  /** `price` and `qty` are what a scan of the orders finds at the front of one side; both 0 when nothing rests. */
  ghost predicate IsFront(orders: Orders, bid: bool, price: int, qty: int)
  {
    if forall id :: !Live(orders, id, bid) then price == 0 && qty == 0
    else
      && (exists id :: Live(orders, id, bid) && orders[id].price == price)
      && (forall id | Live(orders, id, bid) :: if bid then orders[id].price <= price else price <= orders[id].price)
      && qty == LevelSum(orders, bid, price)
  }

  lemma LevelKeysAreLivePrices(b: Book)
    requires Agrees(b)
    ensures forall p: int :: p in b.bids <==> exists id :: Live(b.orders, id, true) && b.orders[id].price == p
    ensures forall p: int :: p in b.asks <==> exists id :: Live(b.orders, id, false) && b.orders[id].price == p
  {
    forall p: int
      ensures p in b.bids <==> exists id :: Live(b.orders, id, true) && b.orders[id].price == p
      ensures p in b.asks <==> exists id :: Live(b.orders, id, false) && b.orders[id].price == p
    {
      AgreesAt(b, p);
      PositiveSumIff(b.orders, true, p);
      PositiveSumIff(b.orders, false, p);
    }
  }

  lemma PositiveSumIff(orders: Orders, bid: bool, p: int)
    ensures 0 <= LevelSum(orders, bid, p)
    ensures 0 < LevelSum(orders, bid, p) <==> exists id :: Live(orders, id, bid) && orders[id].price == p
  {
    var all := Resting(orders, bid, p);
    TotalPositive(all);
    TotalNonNegative(all);
    if 0 < LevelSum(orders, bid, p) {
      var id :| id in all && 0 < all[id];
      assert Live(orders, id, bid) && orders[id].price == p;
    }
    if id :| Live(orders, id, bid) && orders[id].price == p {
      assert id in all && 0 < all[id];
    }
  }

  /** The published values of an agreeing book are what a scan of its orders finds. */
  lemma TopIsNaive(b: Book)
    requires Agrees(b)
    ensures IsFront(b.orders, true, BestBidPrice(b), BestBidQty(b))
    ensures IsFront(b.orders, false, BestAskPrice(b), BestAskQty(b))
  {
    LevelKeysAreLivePrices(b);
    AgreesAt(b, BestBidPrice(b));
    AgreesAt(b, BestAskPrice(b));
    FrontOfSide(b.bids, b.orders, true);
    FrontOfSide(b.asks, b.orders, false);
  }

  lemma FrontOfSide(levels: Levels, orders: Orders, bid: bool)
    requires forall p: int :: p in levels <==> exists id :: Live(orders, id, bid) && orders[id].price == p
    ensures levels == map[] ==> IsFront(orders, bid, 0, 0)
    ensures levels != map[] ==>
              var p := if bid then Greatest(levels.Keys) else Least(levels.Keys);
              IsFront(orders, bid, p, LevelSum(orders, bid, p))
  {
    forall id | Live(orders, id, bid)
      ensures orders[id].price in levels
    {
    }
    if levels == map[] {
      assert forall id :: !Live(orders, id, bid);
    } else {
      var p := if bid then Greatest(levels.Keys) else Least(levels.Keys);
      assert p in levels;
      var id :| Live(orders, id, bid) && orders[id].price == p;
    }
  }

  /** The crossed test answers the question it stands for: some live buy is priced at or above some live sell. */
  lemma CrossedIff(b: Book)
    requires Agrees(b)
    ensures IsCrossed(b) <==>
            exists i, j :: Live(b.orders, i, true) && Live(b.orders, j, false) && b.orders[i].price >= b.orders[j].price
  {
    LevelKeysAreLivePrices(b);
    if IsCrossed(b) {
      var p, q := Greatest(b.bids.Keys), Least(b.asks.Keys);
      assert p in b.bids && q in b.asks;
      var i :| Live(b.orders, i, true) && b.orders[i].price == p;
      var j :| Live(b.orders, j, false) && b.orders[j].price == q;
    }
    if i, j :| Live(b.orders, i, true) && Live(b.orders, j, false) && b.orders[i].price >= b.orders[j].price {
      assert b.orders[i].price in b.bids && b.orders[j].price in b.asks;
    }
  }

  // ---- a modify to quantity 0

  /** It puts an empty level at the front of its side exactly when its price beats every other live order there. */
  lemma EmptyFrontIff(b: Book, m: ModifyOrder)
    requires Agrees(b) && Owns(b, m.id) && m.quantity == 0
    ensures
      var after, rest := HandleModify(b, m), b.orders - {m.id};
      if m.side == Buy then
        (BestBidPrice(after) == m.price && BestBidQty(after) == 0)
        <==> forall id | Live(rest, id, true) :: rest[id].price < m.price
      else
        (BestAskPrice(after) == m.price && BestAskQty(after) == 0)
        <==> forall id | Live(rest, id, false) :: m.price < rest[id].price
  {
    var info, rest := b.orders[m.id], b.orders - {m.id};
    var without := RemoveFromPriceLevel(b, info.side, info.price, info.quantity).(orders := rest);
    TakeOutAgrees(b, m.id);
    assert Agrees(without);
    LevelKeysAreLivePrices(without);
    AgreesAt(without, m.price);
    var after := HandleModify(b, m);
    if m.side == Buy {
      assert after.bids == AddLevel(without.bids, m.price, 0);
      assert m.price in after.bids;
      EmptyFrontOfBids(without.bids, m.price);
      assert forall id | Live(rest, id, true) :: rest[id].price in without.bids;
    } else {
      assert after.asks == AddLevel(without.asks, m.price, 0);
      assert m.price in after.asks;
      EmptyFrontOfAsks(without.asks, m.price);
      assert forall id | Live(rest, id, false) :: rest[id].price in without.asks;
    }
  }

  lemma EmptyFrontOfBids(levels: Levels, price: int)
    requires price in levels ==> levels[price] > 0
    ensures
      var more := AddLevel(levels, price, 0);
      more != map[] &&
      ((Greatest(more.Keys) == price && more[price] == 0) <==> forall p | p in levels :: p < price)
  {
    var more := AddLevel(levels, price, 0);
    assert price in more && more.Keys == levels.Keys + {price};
    if price in levels {
      WrapU32Keeps(levels[price]);
    }
  }

  lemma EmptyFrontOfAsks(levels: Levels, price: int)
    requires price in levels ==> levels[price] > 0
    ensures
      var more := AddLevel(levels, price, 0);
      more != map[] &&
      ((Least(more.Keys) == price && more[price] == 0) <==> forall p | p in levels :: price < p)
  {
    var more := AddLevel(levels, price, 0);
    assert price in more && more.Keys == levels.Keys + {price};
    if price in levels {
      WrapU32Keeps(levels[price]);
    }
  }

  /** Two messages are enough: from an empty book, a buy and its modify to quantity 0, at any prices, leave the
      published bid at a price where nothing rests. */
  lemma EmptyFrontReached(s: Symbol, id: OrderId, quantity: U32, price: I32, newPrice: I32)
    requires quantity > 0 && price >= 0
    ensures
      var after := Run(EmptyBook(s), [New(NewOrder(1, id, s, Buy, quantity, price)),
                                      Modify(ModifyOrder(2, id, Buy, 0, newPrice))]);
      TopOf(after) == Top(newPrice, 0, 0, 0) && !Agrees(after)
  {
    var n, c := NewOrder(1, id, s, Buy, quantity, price), ModifyOrder(2, id, Buy, 0, newPrice);
    var b := HandleNew(EmptyBook(s), n);
    assert [New(n), Modify(c)][1..] == [Modify(c)] && [Modify(c)][1..] == [];
    assert Run(b, [Modify(c)]) == Run(HandleModify(b, c), []);
    EmptyAgrees(s);
    assert LevelSum(map[], true, price) == 0 by {
      assert Resting(map[], true, price) == map[];
    }
    NewAgreesIff(EmptyBook(s), n);
    EmptyFrontIff(b, c);
    assert b.orders - {id} == map[];
    var after := HandleModify(b, c);
    assert after.asks == map[];
    if Agrees(after) {
      AgreesAt(after, newPrice);
    }
  }
}
