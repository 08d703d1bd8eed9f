/** Routing of feed messages to the thirteen books, and the packets of the two feeds. */
module Feeds {
  import opened Market
  import opened Books
  import opened Slots
  import opened Sums

  type Routes = map<OrderId, Symbol>

  datatype Feed = Feed(table: Table, routes: Routes)

  function EmptyFeed(): Feed { Feed(EmptyTable(), map[]) }

  // ---- dispatch

  /** A new order names its symbol and is always recorded, even when the book turns it away. The other messages
      carry only an order id and are looked up. */
  function Dispatch(f: Feed, m: BookMsg): Feed
  {
    match m
    case New(n) => Feed(OnMessage(f.table, n.symbol, m), f.routes[n.id := n.symbol])
    case Delete(d) =>
      if d.id !in f.routes then f else Feed(OnMessage(f.table, f.routes[d.id], m), f.routes - {d.id})
    case Modify(c) =>
      if c.id !in f.routes then f else f.(table := OnMessage(f.table, f.routes[c.id], m))
    case Executed(t) =>
      if t.id !in f.routes then f else f.(table := OnMessage(f.table, f.routes[t.id], m))
  }

  // ---- packets

  /** One record of a snapshot packet. `Other` stands for any record that is neither, a cut-off tail included. */
  datatype Record =
    | Info(symbol: Symbol, bidCount: U32, askCount: U32)
    | Listed(order: NewOrder)
    | Other

  datatype Packet =
    | Book(msg: BookMsg)             // live magic, one of the four book messages
    | Quiet                          // live magic, heartbeat or any other type
    | Snapshot(records: seq<Record>) // snapshot magic
    | Foreign                        // neither magic

  function DropRoutes(routes: Routes, symbol: Symbol): Routes
  {
    map id | id in routes && routes[id] != symbol :: routes[id]
  }

  function BeginBlock(f: Feed, symbol: Symbol): Feed
  {
    Feed(ResetBook(f.table, symbol), DropRoutes(f.routes, symbol))
  }

  /** How many resting orders lead `records`, up to `count`. */
  function Leading(records: seq<Record>, count: nat): (n: nat)
    ensures n <= |records| && n <= count
    ensures forall i | 0 <= i < n :: records[i].Listed?
    ensures n < |records| && n < count ==> !records[n].Listed?
    decreases count
  {
    if count == 0 || records == [] || !records[0].Listed? then 0 else 1 + Leading(records[1..], count - 1)
  }

  /** What one packet asks for, one book at a time. */
  datatype Action = Begin(symbol: Symbol) | Deliver(msg: BookMsg)

  function Loads(records: seq<Record>): seq<Action>
    requires forall i | 0 <= i < |records| :: records[i].Listed?
  {
    if records == [] then [] else [Deliver(New(records[0].order))] + Loads(records[1..])
  }

  /** How many orders the block at the front of `records` loads: no more than its header announces. */
  function BlockSize(records: seq<Record>): (n: nat)
    requires records != [] && records[0].Info?
    ensures 1 + n <= |records| && n <= WrapU32(records[0].bidCount + records[0].askCount)
    ensures forall i | 1 <= i <= n :: records[i].Listed?
    ensures 1 + n < |records| && n < WrapU32(records[0].bidCount + records[0].askCount) ==> !records[1 + n].Listed?
  {
    Leading(records[1..], WrapU32(records[0].bidCount + records[0].askCount))
  }

  /** Block after block: reset the symbol, load its orders. The reading stops at the first record that opens no
      block. */
  function Blocks(records: seq<Record>): seq<Action>
    decreases |records|
  {
    if records == [] || !records[0].Info? then []
    else
      var n := BlockSize(records);
      [Begin(records[0].symbol)] + Loads(records[1..1 + n]) + Blocks(records[1 + n..])
  }

  function ActionsOf(p: Packet): seq<Action>
  {
    match p
    case Book(m) => [Deliver(m)]
    case Quiet => []
    case Snapshot(records) => Blocks(records)
    case Foreign => []
  }

  function Act(f: Feed, a: Action): Feed
  {
    match a
    case Begin(s) => BeginBlock(f, s)
    case Deliver(m) => Dispatch(f, m)
  }

  function ActAll(f: Feed, actions: seq<Action>): Feed
    decreases |actions|
  {
    if actions == [] then f else ActAll(Act(f, actions[0]), actions[1..])
  }

  /** The packet opens at least one snapshot block. */
  predicate HasBlock(p: Packet)
  {
    p.Snapshot? && p.records != [] && p.records[0].Info?
  }

  function Effect(f: Feed, p: Packet): Feed
  {
    ActAll(f, ActionsOf(p))
  }

  function Effects(packets: seq<Packet>): seq<Action>
  {
    if packets == [] then [] else ActionsOf(packets[0]) + Effects(packets[1..])
  }

  /** The plain sequential reading of a list of packets. */
  function Fold(f: Feed, packets: seq<Packet>): Feed
  {
    ActAll(f, Effects(packets))
  }

  lemma {:induction false} ActAllAppend(f: Feed, a: seq<Action>, b: seq<Action>)
    ensures ActAll(f, a + b) == ActAll(ActAll(f, a), b)
    decreases |a|
  {
    if a == [] {
      assert a + b == b;
    } else {
      assert (a + b)[0] == a[0] && (a + b)[1..] == a[1..] + b;
      ActAllAppend(Act(f, a[0]), a[1..], b);
    }
  }

  lemma {:induction false} EffectsAppend(a: seq<Packet>, b: seq<Packet>)
    ensures Effects(a + b) == Effects(a) + Effects(b)
  {
    if a == [] {
      assert a + b == b;
    } else {
      assert (a + b)[0] == a[0] && (a + b)[1..] == a[1..] + b;
      EffectsAppend(a[1..], b);
    }
  }

  lemma FoldAppend(f: Feed, a: seq<Packet>, b: seq<Packet>)
    ensures Fold(f, a + b) == Fold(Fold(f, a), b)
  {
    EffectsAppend(a, b);
    ActAllAppend(f, Effects(a), Effects(b));
  }

  lemma FoldSnoc(f: Feed, a: seq<Packet>, p: Packet)
    ensures Fold(f, a + [p]) == Effect(Fold(f, a), p)
  {
    EffectsAppend(a, [p]);
    assert [p][0] == p && [p][1..] == [];
    assert Effects([p]) == ActionsOf(p);
    ActAllAppend(f, Effects(a), ActionsOf(p));
  }

  // ---- routing

  /** Every resting order is in the book of its own symbol and is routed there. */
  ghost predicate Routed(f: Feed)
  {
    forall s: Symbol ::
      f.table[s].book.symbol == s &&
      forall id | id in f.table[s].book.orders ::
        f.table[s].book.orders[id].symbol == s && id in f.routes && f.routes[id] == s
  }

  /** No other symbol's book holds this id. */
  ghost predicate IdFree(f: Feed, id: OrderId, symbol: Symbol)
  {
    forall s: Symbol | s != symbol :: id !in f.table[s].book.orders
  }

  lemma RoutedAt(f: Feed, s: Symbol, id: OrderId)
    requires Routed(f) && id in f.table[s].book.orders
    ensures f.table[s].book.symbol == s && f.table[s].book.orders[id].symbol == s
    ensures id in f.routes && f.routes[id] == s
  {
    assert f.table[s].book.symbol == s;
  }

  lemma ApplyTouchesOneId(b: Book, m: BookMsg)
    ensures Apply(b, m).symbol == b.symbol
    ensures forall id | id in Apply(b, m).orders && id != m.Id() ::
              id in b.orders && Apply(b, m).orders[id] == b.orders[id]
    ensures !m.New? && m.Id() in Apply(b, m).orders ==>
              m.Id() in b.orders && Apply(b, m).orders[m.Id()].symbol == b.orders[m.Id()].symbol
    ensures m.New? && m.Id() in Apply(b, m).orders ==>
              (m.Id() in b.orders && Apply(b, m).orders[m.Id()] == b.orders[m.Id()])
              || Apply(b, m).orders[m.Id()].symbol == m.newOrder.symbol
    ensures m.Delete? && Owns(b, m.Id()) ==> m.Id() !in Apply(b, m).orders
  {
  }

  /** Routing survives a message exactly when a new order's id is not resting under another symbol. */
  lemma DispatchRoutedIff(f: Feed, m: BookMsg)
    requires Routed(f)
    ensures Routed(Dispatch(f, m)) <==> (m.New? ==> IdFree(f, m.newOrder.id, m.newOrder.symbol))
  {
    var f' := Dispatch(f, m);
    if m.New? || m.Id() in f.routes {
      var at: Symbol := if m.New? then m.newOrder.symbol else f.routes[m.Id()];
      ApplyTouchesOneId(f.table[at].book, m);
      if !m.New? || IdFree(f, m.newOrder.id, at) {
        forall s: Symbol
          ensures f'.table[s].book.symbol == s
          ensures forall id | id in f'.table[s].book.orders ::
                    f'.table[s].book.orders[id].symbol == s && id in f'.routes && f'.routes[id] == s
        {
          assert f.table[s].book.symbol == s;
        }
      } else {
        var s: Symbol :| s != at && m.newOrder.id in f.table[s].book.orders;
        assert f'.table[s] == f.table[s];
        assert f'.routes[m.newOrder.id] == at;
        assert !Routed(f') by {
          if Routed(f') {
            RoutedAt(f', s, m.newOrder.id);
          }
        }
      }
    }
  }

  /** A new order is routed to its symbol whatever the book says; a delete forgets the id; nothing else moves a
      route. */
  lemma DispatchRoutes(f: Feed, m: BookMsg)
    ensures
      var routes := Dispatch(f, m).routes;
      && (m.New? ==> m.Id() in routes && routes[m.Id()] == m.newOrder.symbol)
      && (m.Delete? ==> m.Id() !in routes)
      && (m.Modify? || m.Executed? ==> routes == f.routes)
      && forall id | id != m.Id() ::
           (id in routes <==> id in f.routes) && (id in f.routes ==> routes[id] == f.routes[id])
  {
  }

  /** A message for a resting order reaches the one book that holds it, and that book acts on it. */
  lemma NothingMisrouted(f: Feed, s: Symbol, m: BookMsg)
    requires Routed(f) && !m.New? && m.Id() in f.table[s].book.orders
    ensures Dispatch(f, m).table == OnMessage(f.table, s, m)
    ensures Owns(f.table[s].book, m.Id())
    ensures forall s': Symbol | m.Id() in f.table[s'].book.orders :: s' == s
  {
    RoutedAt(f, s, m.Id());
    forall s': Symbol | m.Id() in f.table[s'].book.orders
      ensures s' == s
    {
      RoutedAt(f, s', m.Id());
    }
  }

  lemma BeginBlockRouted(f: Feed, symbol: Symbol)
    requires Routed(f)
    ensures Routed(BeginBlock(f, symbol))
  {
    var f' := BeginBlock(f, symbol);
    forall s: Symbol
      ensures f'.table[s].book.symbol == s
      ensures forall id | id in f'.table[s].book.orders ::
                f'.table[s].book.orders[id].symbol == s && id in f'.routes && f'.routes[id] == s
    {
      assert f.table[s].book.symbol == s;
    }
  }

  // ---- whole feeds

  /** Books, published values and routes all right. */
  ghost predicate FeedOk(f: Feed)
  {
    TableOk(f.table) && Routed(f)
  }

  lemma EmptyFeedOk()
    ensures FeedOk(EmptyFeed())
  {
    EmptyTableOk();
    forall s: Symbol
      ensures EmptyTable()[s] == EmptySlot(s)
    {
    }
  }

  /** Where a message lands. */
  function Target(f: Feed, m: BookMsg): Symbol
  {
    if m.New? then m.newOrder.symbol else if m.Id() in f.routes then f.routes[m.Id()] else 1
  }

  ghost predicate MsgFits(f: Feed, m: BookMsg)
  {
    && (m.New? || m.Id() in f.routes ==> Fits(f.table[Target(f, m)].book, m))
    && (m.New? ==> IdFree(f, m.newOrder.id, m.newOrder.symbol))
  }

  /** A message keeps books, published values and routes right if and only if it fits. */
  lemma DispatchOkIff(f: Feed, m: BookMsg)
    requires FeedOk(f)
    ensures FeedOk(Dispatch(f, m)) <==> MsgFits(f, m)
  {
    DispatchRoutedIff(f, m);
    if m.New? || m.Id() in f.routes {
      OnMessageOkIff(f.table, Target(f, m), m);
    }
  }

  lemma BeginBlockOk(f: Feed, symbol: Symbol)
    requires FeedOk(f)
    ensures FeedOk(BeginBlock(f, symbol))
  {
    ResetOk(f.table, symbol);
    BeginBlockRouted(f, symbol);
  }

  ghost predicate ActionFits(f: Feed, a: Action)
  {
    a.Deliver? ==> MsgFits(f, a.msg)
  }

  ghost predicate ActionsFit(f: Feed, actions: seq<Action>)
    decreases |actions|
  {
    actions != [] ==> ActionFits(f, actions[0]) && ActionsFit(Act(f, actions[0]), actions[1..])
  }

  lemma ActOk(f: Feed, a: Action)
    requires FeedOk(f) && ActionFits(f, a)
    ensures FeedOk(Act(f, a))
  {
    match a
    case Begin(s) => BeginBlockOk(f, s);
    case Deliver(m) => DispatchOkIff(f, m);
  }

  /** After any fitting packets, snapshots included, every index, published value and route is right. */
  lemma {:induction false} ActAllOk(f: Feed, actions: seq<Action>)
    requires FeedOk(f) && ActionsFit(f, actions)
    ensures FeedOk(ActAll(f, actions))
    decreases |actions|
  {
    if actions != [] {
      ActOk(f, actions[0]);
      ActAllOk(Act(f, actions[0]), actions[1..]);
    }
  }
}
