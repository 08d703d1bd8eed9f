/** A snapshot that lists a book's own orders, in any order, rebuilds that book. */
module SnapshotRestore {
  import opened Market
  import opened Books
  import opened Slots
  import opened Sums
  import opened Feeds

  /** What the book accepts from a new-order message: a known side, something to trade, no negative price. */
  predicate Admissible(info: OrderInfo)
  {
    (info.side == Buy || info.side == Sell) && info.quantity > 0 && info.price >= 0
  }

  predicate Describes(m: NewOrder, orders: Orders)
  {
    m.id in orders && orders[m.id] == OrderInfo(m.price, m.quantity, m.side, m.symbol)
  }

  ghost predicate Distinct(ms: seq<NewOrder>)
  {
    forall i, j | 0 <= i < j < |ms| :: ms[i].id != ms[j].id
  }

  ghost predicate Mentions(ms: seq<NewOrder>, id: OrderId)
  {
    exists i | 0 <= i < |ms| :: ms[i].id == id
  }

  /** `ms` names every order of `orders` once, as it rests. */
  ghost predicate Lists(ms: seq<NewOrder>, orders: Orders)
  {
    && Distinct(ms)
    && (forall i | 0 <= i < |ms| :: Describes(ms[i], orders))
    && (forall id | id in orders :: Mentions(ms, id))
  }

  function Deliveries(ms: seq<NewOrder>): seq<Action>
  {
    if ms == [] then [] else [Deliver(New(ms[0]))] + Deliveries(ms[1..])
  }

  ghost predicate NoOverflow(orders: Orders)
  {
    forall bid: bool, p: int :: LevelSum(orders, bid, p) < TWO_32
  }

  ghost predicate PartOf(part: Orders, whole: Orders)
  {
    forall id | id in part :: id in whole && part[id] == whole[id]
  }

  lemma PartSumsLess(part: Orders, whole: Orders, bid: bool, p: int)
    requires PartOf(part, whole)
    ensures LevelSum(part, bid, p) <= LevelSum(whole, bid, p)
  {
    TotalMonotone(Resting(part, bid, p), Resting(whole, bid, p));
  }

  lemma AgreeingBookFits(b: Book)
    requires Agrees(b)
    ensures NoOverflow(b.orders)
  {
    forall bid: bool, p: int
      ensures LevelSum(b.orders, bid, p) < TWO_32
    {
      AgreesAt(b, p);
    }
  }

  /** One listed order: loaded if admissible, passed over if not, routed either way. */
  lemma LoadOne(f: Feed, s: Symbol, m: NewOrder, whole: Orders)
    requires SlotOk(f.table[s], s) && NoOverflow(whole) && m.symbol == s
    requires PartOf(f.table[s].book.orders, whole) && Describes(m, whole) && m.id !in f.table[s].book.orders
    ensures
      var was, f' := f.table[s].book.orders, Act(f, Deliver(New(m)));
      && SlotOk(f'.table[s], s)
      && f'.table[s].book.orders == WithOne(was, m.id, whole)
      && f'.table == f.table[s := f'.table[s]]
      && f'.routes == f.routes[m.id := s]
  {
    var b := f.table[s].book;
    var info := whole[m.id];
    if Admissible(info) {
      var more := b.orders[m.id := info];
      PartSumsLess(more, whole, m.side == Buy, m.price);
      LevelSumPut(b.orders, m.id, info, m.side == Buy, m.price);
      assert b.orders - {m.id} == b.orders;
      assert Fits(b, New(m));
    }
    NewAgreesIff(b, m);
    ApplyKeepsSymbol(b, New(m));
  }

  function Ids(ms: seq<NewOrder>): set<OrderId> { set i | 0 <= i < |ms| :: ms[i].id }

  /** The orders of `whole` under the given ids that the book accepts. */
  function Accepted(ids: set<OrderId>, whole: Orders): Orders
  {
    map id | id in whole && id in ids && Admissible(whole[id]) :: whole[id]
  }

  function AllTo(ids: set<OrderId>, s: Symbol): Routes
  {
    map id | id in ids :: s
  }

  function WithOne(was: Orders, id: OrderId, whole: Orders): Orders
    requires id in whole
  {
    if Admissible(whole[id]) then was[id := whole[id]] else was
  }

  lemma AcceptedStep(was: Orders, id: OrderId, ids: set<OrderId>, whole: Orders)
    requires id in whole && id !in was
    ensures WithOne(was, id, whole) + Accepted(ids, whole) == was + Accepted({id} + ids, whole)
  {
    assert (WithOne(was, id, whole) + Accepted(ids, whole)).Keys == (was + Accepted({id} + ids, whole)).Keys;
  }

  lemma AllToStep(routes: Routes, id: OrderId, ids: set<OrderId>, s: Symbol)
    ensures routes[id := s] + AllTo(ids, s) == routes + AllTo({id} + ids, s)
  {
  }

  lemma {:induction false} LoadAll(f: Feed, s: Symbol, ms: seq<NewOrder>, whole: Orders)
    requires SlotOk(f.table[s], s) && NoOverflow(whole)
    requires PartOf(f.table[s].book.orders, whole)
    requires Distinct(ms) && forall i | 0 <= i < |ms| :: Describes(ms[i], whole) && ms[i].symbol == s
    requires forall id | id in Ids(ms) :: id !in f.table[s].book.orders
    ensures
      var f' := ActAll(f, Deliveries(ms));
      && SlotOk(f'.table[s], s)
      && f'.table[s].book.orders == f.table[s].book.orders + Accepted(Ids(ms), whole)
      && f'.table == f.table[s := f'.table[s]]
      && f'.routes == f.routes + AllTo(Ids(ms), s)
    decreases |ms|
  {
    if ms == [] {
      assert Ids(ms) == {};
    } else {
      var m, rest := ms[0], ms[1..];
      assert Ids(ms) == {m.id} + Ids(rest);
      assert Distinct(rest) && m.id !in Ids(rest);
      LoadOne(f, s, m, whole);
      var next := Act(f, Deliver(New(m)));
      LoadAll(next, s, rest, whole);
      assert Deliveries(ms)[0] == Deliver(New(m)) && Deliveries(ms)[1..] == Deliveries(rest);
      AcceptedStep(f.table[s].book.orders, m.id, Ids(rest), whole);
      AllToStep(f.routes, m.id, Ids(rest), s);
    }
  }

  function Records(ms: seq<NewOrder>): seq<Record>
  {
    seq(|ms|, i requires 0 <= i < |ms| => Listed(ms[i]))
  }

  /** The packet that announces one symbol and carries its orders. */
  function SnapshotOf(s: Symbol, bidCount: U32, askCount: U32, ms: seq<NewOrder>): Packet
  {
    Packet.Snapshot([Info(s, bidCount, askCount)] + Records(ms))
  }

  lemma {:induction false} LoadsAreDeliveries(records: seq<Record>, ms: seq<NewOrder>)
    requires |records| == |ms| && forall i | 0 <= i < |ms| :: records[i] == Listed(ms[i])
    ensures Loads(records) == Deliveries(ms)
    decreases |ms|
  {
    if ms != [] {
      LoadsAreDeliveries(records[1..], ms[1..]);
    }
  }

  /** One symbol's part of a packet. */
  datatype Block = Block(symbol: Symbol, bidCount: U32, askCount: U32, orders: seq<NewOrder>)

  function BlockRecords(k: Block): seq<Record>
  {
    [Info(k.symbol, k.bidCount, k.askCount)] + Records(k.orders)
  }

  /** What a header announces; the sum of its counts is a 32-bit one. */
  function Announced(k: Block): nat
  {
    WrapU32(k.bidCount + k.askCount)
  }

  /** The reading of this block's orders ends with them: as many as announced, or fewer and no order after them. */
  predicate EndsHere(k: Block, rest: seq<Record>)
  {
    |k.orders| == Announced(k) || (|k.orders| < Announced(k) && (rest == [] || !rest[0].Listed?))
  }

  lemma {:induction false} LeadingFull(records: seq<Record>, n: nat, count: nat)
    requires n <= |records| && n <= count && forall i | 0 <= i < n :: records[i].Listed?
    requires n < count ==> n == |records| || !records[n].Listed?
    ensures Leading(records, count) == n
    decreases n
  {
    if n > 0 {
      LeadingFull(records[1..], n - 1, count - 1);
    }
  }

  /** A block is one reset and its orders, whatever was announced beyond them; then the reading goes on. */
  lemma BlocksCons(k: Block, rest: seq<Record>)
    requires EndsHere(k, rest)
    ensures Blocks(BlockRecords(k) + rest) == [Begin(k.symbol)] + Deliveries(k.orders) + Blocks(rest)
  {
    var all, n := BlockRecords(k) + rest, |k.orders|;
    assert all[1..] == Records(k.orders) + rest;
    LeadingFull(all[1..], n, Announced(k));
    assert BlockSize(all) == n;
    assert all[1..1 + n] == Records(k.orders) && all[1 + n..] == rest;
    LoadsAreDeliveries(Records(k.orders), k.orders);
  }

  /** A record that opens no block, be it foreign, cut off, or an order beyond what was announced, ends the reading:
      whatever follows is ignored. */
  lemma StrayEndsReading(k: Block, stray: Record, ignored: seq<Record>)
    requires !stray.Info? && EndsHere(k, [stray] + ignored)
    ensures Blocks(BlockRecords(k) + ([stray] + ignored)) == [Begin(k.symbol)] + Deliveries(k.orders)
    ensures Blocks([stray] + ignored) == []
  {
    BlocksCons(k, [stray] + ignored);
    assert ([stray] + ignored)[0] == stray;
    assert [Begin(k.symbol)] + Deliveries(k.orders) + [] == [Begin(k.symbol)] + Deliveries(k.orders);
  }

  lemma SnapshotActions(s: Symbol, bidCount: U32, askCount: U32, ms: seq<NewOrder>)
    requires bidCount + askCount == |ms| < TWO_32
    ensures ActionsOf(SnapshotOf(s, bidCount, askCount, ms)) == [Begin(s)] + Deliveries(ms)
  {
    var k := Block(s, bidCount, askCount, ms);
    WrapU32Keeps(bidCount + askCount);
    BlocksCons(k, []);
    assert BlockRecords(k) + [] == BlockRecords(k);
    assert [Begin(s)] + Deliveries(ms) + Blocks([]) == [Begin(s)] + Deliveries(ms);
  }

  lemma ActAllCons(f: Feed, a: Action, rest: seq<Action>)
    ensures ActAll(f, [a] + rest) == ActAll(Act(f, a), rest)
  {
    assert ([a] + rest)[0] == a && ([a] + rest)[1..] == rest;
  }

  lemma ListsIds(ms: seq<NewOrder>, whole: Orders)
    requires Lists(ms, whole)
    ensures Ids(ms) == whole.Keys
  {
    forall id | id in whole
      ensures id in Ids(ms)
    {
      assert Mentions(ms, id);
    }
    forall id | id in Ids(ms)
      ensures id in whole
    {
      var i :| 0 <= i < |ms| && ms[i].id == id;
      assert Describes(ms[i], whole);
    }
  }

  /** What the block's deliveries leave, starting from the cleared symbol. */
  ghost predicate Restored(f: Feed, f': Feed, s: Symbol)
  {
    && SlotOk(f'.table[s], s)
    && f'.table[s].book.orders == Accepted(f.table[s].book.orders.Keys, f.table[s].book.orders)
    && f'.table == f.table[s := f'.table[s]]
    && f'.routes == DropRoutes(f.routes, s) + AllTo(f.table[s].book.orders.Keys, s)
  }

  /** The orders of a routed book carry its symbol. */
  lemma ListedSymbols(f: Feed, s: Symbol, ms: seq<NewOrder>)
    requires Routed(f) && Lists(ms, f.table[s].book.orders)
    ensures forall i | 0 <= i < |ms| :: Describes(ms[i], f.table[s].book.orders) && ms[i].symbol == s
  {
    forall i | 0 <= i < |ms|
      ensures ms[i].symbol == s
    {
      assert Describes(ms[i], f.table[s].book.orders);
      RoutedAt(f, s, ms[i].id);
    }
  }

  /** What loading leaves, in terms of the cleared feed. */
  ghost predicate LoadedOnto(cleared: Feed, f': Feed, s: Symbol, whole: Orders)
  {
    && SlotOk(f'.table[s], s)
    && f'.table[s].book.orders == map[] + Accepted(whole.Keys, whole)
    && f'.table == cleared.table[s := f'.table[s]]
    && f'.routes == cleared.routes + AllTo(whole.Keys, s)
  }

  lemma LoadCleared(f: Feed, s: Symbol, ms: seq<NewOrder>, whole: Orders)
    requires NoOverflow(whole) && Lists(ms, whole) && forall i | 0 <= i < |ms| :: ms[i].symbol == s
    ensures LoadedOnto(BeginBlock(f, s), ActAll(BeginBlock(f, s), Deliveries(ms)), s, whole)
  {
    ListsIds(ms, whole);
    ClearedIsEmpty(f, s);
    LoadAll(BeginBlock(f, s), s, ms, whole);
  }

  lemma LoadedIsRestored(f: Feed, f': Feed, s: Symbol)
    requires LoadedOnto(BeginBlock(f, s), f', s, f.table[s].book.orders)
    ensures Restored(f, f', s)
  {
    var whole := f.table[s].book.orders;
    SetTwice(f.table, s, EmptySlot(s), f'.table[s]);
    assert map[] + Accepted(whole.Keys, whole) == Accepted(whole.Keys, whole);
  }

  lemma RestoreLoads(f: Feed, s: Symbol, ms: seq<NewOrder>)
    requires FeedOk(f) && Lists(ms, f.table[s].book.orders)
    ensures Restored(f, ActAll(BeginBlock(f, s), Deliveries(ms)), s)
  {
    assert SlotOk(f.table[s], s);
    AgreeingBookFits(f.table[s].book);
    ListedSymbols(f, s, ms);
    LoadCleared(f, s, ms, f.table[s].book.orders);
    LoadedIsRestored(f, ActAll(BeginBlock(f, s), Deliveries(ms)), s);
  }

  lemma SetTwice(t: Table, s: Symbol, first: Slot, last: Slot)
    ensures t[s := first][s := last] == t[s := last]
  {
  }

  lemma ClearedIsEmpty(f: Feed, s: Symbol)
    ensures
      var cleared := BeginBlock(f, s);
      SlotOk(cleared.table[s], s) && cleared.table[s].book.orders == map[]
  {
    EmptyAgrees(s);
  }

  /** Replaying a snapshot of one symbol's own orders: the admissible orders come back, every index and published
      value is right, no other symbol changes, and every id listed is routed here. */
  lemma Restore(f: Feed, s: Symbol, bidCount: U32, askCount: U32, ms: seq<NewOrder>)
    requires FeedOk(f) && Lists(ms, f.table[s].book.orders) && bidCount + askCount == |ms| < TWO_32
    ensures Restored(f, Effect(f, SnapshotOf(s, bidCount, askCount, ms)), s)
  {
    SnapshotActions(s, bidCount, askCount, ms);
    ActAllCons(f, Begin(s), Deliveries(ms));
    RestoreLoads(f, s, ms);
  }

  /** Afterwards exactly the listed ids are routed to the symbol, and the ids of other symbols as before: no stale route
      is left. */
  lemma RestoredRoutes(f: Feed, s: Symbol, bidCount: U32, askCount: U32, ms: seq<NewOrder>)
    requires FeedOk(f) && Lists(ms, f.table[s].book.orders) && bidCount + askCount == |ms| < TWO_32
    ensures
      var routes := Effect(f, SnapshotOf(s, bidCount, askCount, ms)).routes;
      && (forall id :: id in routes && routes[id] == s <==> Mentions(ms, id))
      && (forall id | !Mentions(ms, id) ::
            (id in routes <==> id in f.routes && f.routes[id] != s) && (id in routes ==> routes[id] == f.routes[id]))
  {
    Restore(f, s, bidCount, askCount, ms);
    ListsIds(ms, f.table[s].book.orders);
    forall id
      ensures Mentions(ms, id) <==> id in f.table[s].book.orders
    {
      assert id in Ids(ms) <==> Mentions(ms, id);
    }
  }

  /** The book comes back whole (orders, levels, published values) exactly when every order in it is admissible;
      a modify can have left one that is not. */
  lemma RestoresIff(f: Feed, s: Symbol, bidCount: U32, askCount: U32, ms: seq<NewOrder>)
    requires FeedOk(f) && Lists(ms, f.table[s].book.orders) && bidCount + askCount == |ms| < TWO_32
    ensures
      var was, now := f.table[s], Effect(f, SnapshotOf(s, bidCount, askCount, ms)).table[s];
      (now.book.orders == was.book.orders && now.book.bids == was.book.bids && now.book.asks == was.book.asks
        && now.top == was.top)
      <==> (forall id | id in was.book.orders :: Admissible(was.book.orders[id]))
  {
    Restore(f, s, bidCount, askCount, ms);
    var was, now := f.table[s], Effect(f, SnapshotOf(s, bidCount, askCount, ms)).table[s];
    var whole := was.book.orders;
    assert SlotOk(was, s);
    if forall id | id in whole :: Admissible(whole[id]) {
      assert now.book.orders == whole;
      AgreementDeterminesLevels(now.book, was.book);
    } else {
      var id :| id in whole && !Admissible(whole[id]);
      assert id !in now.book.orders;
    }
  }

  // ---- packets of several blocks

  ghost predicate BlockFits(f: Feed, k: Block)
  {
    Lists(k.orders, f.table[k.symbol].book.orders) && k.bidCount + k.askCount == |k.orders| < TWO_32
  }

  function AllRecords(ks: seq<Block>): seq<Record>
  {
    if ks == [] then [] else BlockRecords(ks[0]) + AllRecords(ks[1..])
  }

  /** A restored symbol leaves the whole feed right. */
  lemma RestoredOk(f: Feed, f': Feed, s: Symbol)
    requires FeedOk(f) && Restored(f, f', s)
    ensures FeedOk(f')
  {
    forall t: Symbol
      ensures SlotOk(f'.table[t], t)
      ensures forall id | id in f'.table[t].book.orders ::
                f'.table[t].book.orders[id].symbol == t && id in f'.routes && f'.routes[id] == t
    {
      assert SlotOk(f.table[t], t);
      forall id | id in f'.table[t].book.orders
        ensures f'.table[t].book.orders[id].symbol == t && id in f'.routes && f'.routes[id] == t
      {
        RoutedAt(f, t, id);
        if t != s && id in f.table[s].book.orders {
          RoutedAt(f, s, id);
        }
      }
    }
  }

  lemma RestoreBlock(f: Feed, k: Block, rest: seq<Record>)
    requires FeedOk(f) && BlockFits(f, k)
    ensures
      var next := ActAll(BeginBlock(f, k.symbol), Deliveries(k.orders));
      && Restored(f, next, k.symbol) && FeedOk(next)
      && ActAll(f, Blocks(BlockRecords(k) + rest)) == ActAll(next, Blocks(rest))
  {
    WrapU32Keeps(k.bidCount + k.askCount);
    BlocksCons(k, rest);
    ActAllAppend(f, [Begin(k.symbol)] + Deliveries(k.orders), Blocks(rest));
    ActAllCons(f, Begin(k.symbol), Deliveries(k.orders));
    RestoreLoads(f, k.symbol, k.orders);
    RestoredOk(f, ActAll(BeginBlock(f, k.symbol), Deliveries(k.orders)), k.symbol);
  }

  ghost predicate DistinctSymbols(ks: seq<Block>)
  {
    forall i, j | 0 <= i < j < |ks| :: ks[i].symbol != ks[j].symbol
  }

  ghost predicate Concerns(ks: seq<Block>, s: Symbol)
  {
    exists i :: 0 <= i < |ks| && ks[i].symbol == s
  }

  /** The admissible orders of every symbol with a block, and the other symbols as they were. */
  ghost predicate AllRestored(f: Feed, f': Feed, ks: seq<Block>)
  {
    forall s: Symbol ::
      if Concerns(ks, s) then
        f'.table[s].book.orders == Accepted(f.table[s].book.orders.Keys, f.table[s].book.orders)
      else f'.table[s] == f.table[s]
  }

  lemma ConcernsCons(ks: seq<Block>, s: Symbol)
    requires ks != []
    ensures Concerns(ks, s) <==> ks[0].symbol == s || Concerns(ks[1..], s)
  {
    if i :| 0 <= i < |ks[1..]| && ks[1..][i].symbol == s {
      assert ks[i + 1].symbol == s;
    }
    if i :| 1 <= i < |ks| && ks[i].symbol == s {
      assert ks[1..][i - 1].symbol == s;
    }
  }

  lemma AllRestoredCons(f: Feed, next: Feed, f': Feed, ks: seq<Block>)
    requires ks != [] && DistinctSymbols(ks)
    requires Restored(f, next, ks[0].symbol) && AllRestored(next, f', ks[1..])
    ensures AllRestored(f, f', ks)
  {
    forall s: Symbol
      ensures if Concerns(ks, s) then
                f'.table[s].book.orders == Accepted(f.table[s].book.orders.Keys, f.table[s].book.orders)
              else f'.table[s] == f.table[s]
    {
      ConcernsCons(ks, s);
    }
  }

  ghost predicate AllFit(f: Feed, ks: seq<Block>)
  {
    forall i | 0 <= i < |ks| :: BlockFits(f, ks[i])
  }

  lemma FitsElsewhere(f: Feed, next: Feed, s: Symbol, k: Block)
    requires Restored(f, next, s) && k.symbol != s
    ensures BlockFits(next, k) <==> BlockFits(f, k)
  {
    assert next.table[k.symbol] == f.table[k.symbol];
  }

  lemma AllFitCons(f: Feed, next: Feed, ks: seq<Block>)
    requires ks != [] && AllFit(f, ks) && DistinctSymbols(ks) && Restored(f, next, ks[0].symbol)
    ensures AllFit(next, ks[1..]) && DistinctSymbols(ks[1..])
  {
    forall i | 0 <= i < |ks[1..]|
      ensures BlockFits(next, ks[1..][i])
    {
      assert ks[1..][i] == ks[i + 1] && BlockFits(f, ks[i + 1]) && ks[0].symbol != ks[i + 1].symbol;
      FitsElsewhere(f, next, ks[0].symbol, ks[i + 1]);
    }
  }

  lemma NoBlocks(f: Feed)
    ensures Effect(f, Packet.Snapshot([])) == f && AllRestored(f, f, [])
  {
  }

  /** A packet that lists the own orders of several symbols, each once: the admissible ones come back symbol by symbol,
      nothing else changes, and everything is right afterwards. */
  lemma {:induction false} RestoreAll(f: Feed, ks: seq<Block>)
    requires FeedOk(f) && DistinctSymbols(ks) && AllFit(f, ks)
    ensures
      var f' := Effect(f, Packet.Snapshot(AllRecords(ks)));
      FeedOk(f') && AllRestored(f, f', ks)
    decreases |ks|
  {
    if ks == [] {
      NoBlocks(f);
    } else {
      var k, rest := ks[0], ks[1..];
      var next := ActAll(BeginBlock(f, k.symbol), Deliveries(k.orders));
      RestoreBlock(f, k, AllRecords(rest));
      AllFitCons(f, next, ks);
      RestoreAll(next, rest);
      AllRestoredCons(f, next, Effect(next, Packet.Snapshot(AllRecords(rest))), ks);
    }
  }

  // ---- a snapshot that does not restore

  lemma FirstOrder(n: NewOrder)
    requires n.side == Buy && n.quantity > 0 && n.price >= 0
    ensures ActionFits(EmptyFeed(), Deliver(New(n)))
    ensures
      var f := Act(EmptyFeed(), Deliver(New(n)));
      && FeedOk(f) && f.routes == map[n.id := n.symbol]
      && f.table[n.symbol].book.orders == map[n.id := OrderInfo(n.price, n.quantity, Buy, n.symbol)]
  {
    EmptyFeedOk();
    assert EmptyFeed().table[n.symbol] == EmptySlot(n.symbol);
    assert LevelSum(map[], true, n.price) == 0 by {
      assert Resting(map[], true, n.price) == map[];
    }
    ActOk(EmptyFeed(), Deliver(New(n)));
  }

  lemma OnlyOrderModified(f: Feed, s: Symbol, c: ModifyOrder, info: OrderInfo)
    requires FeedOk(f) && f.routes == map[c.id := s] && f.table[s].book.orders == map[c.id := info]
    requires c.quantity > 0
    ensures ActionFits(f, Deliver(Modify(c)))
    ensures
      var f' := Act(f, Deliver(Modify(c)));
      FeedOk(f') && f'.table[s].book.orders == map[c.id := OrderInfo(c.price, c.quantity, c.side, s)]
  {
    RoutedAt(f, s, c.id);
    assert LevelSum(f.table[s].book.orders - {c.id}, c.side == Buy, c.price) == 0 by {
      assert Resting(f.table[s].book.orders - {c.id}, c.side == Buy, c.price) == map[];
    }
    ActOk(f, Deliver(Modify(c)));
  }

  lemma ListsOne(own: NewOrder)
    ensures Lists([own], map[own.id := OrderInfo(own.price, own.quantity, own.side, own.symbol)])
  {
    assert [own][0].id == own.id;
    assert Mentions([own], own.id);
  }

  lemma TwoActions(f: Feed, a: Action, b: Action)
    ensures ActAll(f, [a, b]) == Act(Act(f, a), b)
    ensures ActionsFit(f, [a, b]) <==> ActionFits(f, a) && ActionFits(Act(f, a), b)
  {
    assert [a, b][1..] == [b] && [b][1..] == [];
    assert ActAll(Act(f, a), [b]) == ActAll(Act(Act(f, a), b), []);
    assert ActionsFit(Act(f, a), [b]) <==> ActionFits(Act(f, a), b) && ActionsFit(Act(Act(f, a), b), []);
  }

  /** Two messages reach a book that its own snapshot does not restore: an order, then a modify of it to a price or a
      side that a new order may not have. */
  lemma UnrestorableReached(s: Symbol, id: OrderId, quantity: U32, price: I32, side: Side, newQty: U32, newPrice: I32)
    requires quantity > 0 && price >= 0 && newQty > 0 && (newPrice < 0 || side.Unknown?)
    ensures
      var actions := [Deliver(New(NewOrder(1, id, s, Buy, quantity, price))),
                      Deliver(Modify(ModifyOrder(2, id, side, newQty, newPrice)))];
      var f := ActAll(EmptyFeed(), actions);
      var own := NewOrder(3, id, s, side, newQty, newPrice);
      && ActionsFit(EmptyFeed(), actions) && FeedOk(f)
      && Lists([own], f.table[s].book.orders)
      && Effect(f, SnapshotOf(s, 1, 0, [own])).table[s].book.orders != f.table[s].book.orders
  {
    var n, c := NewOrder(1, id, s, Buy, quantity, price), ModifyOrder(2, id, side, newQty, newPrice);
    var own := NewOrder(3, id, s, side, newQty, newPrice);
    var f1 := Act(EmptyFeed(), Deliver(New(n)));
    var f2 := Act(f1, Deliver(Modify(c)));
    FirstOrder(n);
    OnlyOrderModified(f1, s, c, OrderInfo(price, quantity, Buy, s));
    TwoActions(EmptyFeed(), Deliver(New(n)), Deliver(Modify(c)));
    ListsOne(own);
    Restore(f2, s, 1, 0, [own]);
    assert !Admissible(f2.table[s].book.orders[id]);
  }
}
