/**
 The market-data thread publishes a symbol's top of book in four separate stores while other threads read.
 A step is one store (or the start of a call); a reader may look between any two steps.
 */
module TopOfBookRace {
  import opened Market
  import opened Books
  import opened Slots

  /** Where the writer stands: between calls, or having made `stored` of the four stores of one call. */
  datatype Writer = Idle | Storing(symbol: Symbol, before: Book, stored: nat)

  datatype Shared = Shared(table: Table, writer: Writer)

  function Update(t: Table, c: Call): Book
  {
    match c
    case Message(s, m) => Apply(t[s].book, m)
    case Reset(s) => EmptyBook(s)
  }

  /** The book changes first; nothing is published yet. */
  function Begin(sh: Shared, c: Call): Shared
    requires sh.writer.Idle?
  {
    var slot := sh.table[c.symbol];
    Shared(sh.table[c.symbol := slot.(book := Update(sh.table, c))], Storing(c.symbol, slot.book, 0))
  }

  /** One store, in the order bid price, bid quantity, ask price, ask quantity. */
  function StoreNext(sh: Shared): Shared
    requires sh.writer.Storing? && sh.writer.stored < 4
  {
    var Storing(s, before, k) := sh.writer;
    var slot := sh.table[s];
    var top :=
      match k
      case 0 => slot.top.(bidPrice := BestBidPrice(slot.book))
      case 1 => slot.top.(bidQty := BestBidQty(slot.book))
      case 2 => slot.top.(askPrice := BestAskPrice(slot.book))
      case _ => slot.top.(askQty := BestAskQty(slot.book));
    Shared(sh.table[s := slot.(top := top)], if k == 3 then Idle else Storing(s, before, k + 1))
  }

  datatype Action = Start(call: Call) | Store

  predicate Enabled(sh: Shared, a: Action)
  {
    match a
    case Start(_) => sh.writer.Idle?
    case Store => sh.writer.Storing? && sh.writer.stored < 4
  }

  function Next(sh: Shared, a: Action): Shared
    requires Enabled(sh, a)
  {
    match a
    case Start(c) => Begin(sh, c)
    case Store => StoreNext(sh)
  }

  predicate Possible(sh: Shared, actions: seq<Action>)
    decreases |actions|
  {
    actions != [] ==> Enabled(sh, actions[0]) && Possible(Next(sh, actions[0]), actions[1..])
  }

  function After(sh: Shared, actions: seq<Action>): Shared
    requires Possible(sh, actions)
    decreases |actions|
  {
    if actions == [] then sh else After(Next(sh, actions[0]), actions[1..])
  }

  /** The fields already stored come from the new book, the others from the one before the call. */
  predicate Mixed(top: Top, before: Top, now: Top, stored: nat)
  {
    && top.bidPrice == (if stored > 0 then now.bidPrice else before.bidPrice)
    && top.bidQty == (if stored > 1 then now.bidQty else before.bidQty)
    && top.askPrice == (if stored > 2 then now.askPrice else before.askPrice)
    && top.askQty == before.askQty
  }

  ghost predicate Coherent(sh: Shared)
  {
    && (forall s: Symbol | !(sh.writer.Storing? && sh.writer.symbol == s) ::
          sh.table[s].top == TopOf(sh.table[s].book))
    && (sh.writer.Storing? ==>
          var Storing(s, before, k) := sh.writer;
          k < 4 && Mixed(sh.table[s].top, TopOf(before), TopOf(sh.table[s].book), k))
  }

  lemma {:induction false} AfterCoherent(sh: Shared, actions: seq<Action>)
    requires Coherent(sh) && Possible(sh, actions)
    ensures Coherent(After(sh, actions))
    decreases |actions|
  {
    if actions != [] {
      AfterCoherent(Next(sh, actions[0]), actions[1..]);
    }
  }

  /** Whatever instant a reader picks, each of the four fields it sees is that field of the symbol's book either as
      it stands or as it stood before the call in progress. */
  lemma ReaderSeesBeforeOrAfter(sh: Shared, actions: seq<Action>, symbol: Symbol)
    requires Coherent(sh) && Possible(sh, actions)
    ensures
      var at := After(sh, actions);
      var seen, now := at.table[symbol].top, at.table[symbol].book;
      var before := if at.writer.Storing? && at.writer.symbol == symbol then at.writer.before else now;
      && seen.bidPrice in {BestBidPrice(before), BestBidPrice(now)}
      && seen.bidQty in {BestBidQty(before), BestBidQty(now)}
      && seen.askPrice in {BestAskPrice(before), BestAskPrice(now)}
      && seen.askQty in {BestAskQty(before), BestAskQty(now)}
  {
    AfterCoherent(sh, actions);
  }

  /** Between calls, right tables are coherent: every run may start from one. */
  lemma IdleCoherent(t: Table)
    requires TableOk(t)
    ensures Coherent(Shared(t, Idle))
  {
    forall s: Symbol
      ensures t[s].top == TopOf(t[s].book)
    {
      assert SlotOk(t[s], s);
    }
  }

  /** The call in progress, if any, works on this symbol and has made `k` of its stores. */
  predicate Midway(sh: Shared, symbol: Symbol, k: nat)
  {
    sh.writer.Storing? && sh.writer.symbol == symbol && sh.writer.stored == k
  }

  /** The book of a symbol before the call in progress. */
  function BookBefore(sh: Shared, symbol: Symbol): Book
  {
    if sh.writer.Storing? && sh.writer.symbol == symbol then sh.writer.before else sh.table[symbol].book
  }

  /** Fields are consistent one by one, not together. A reader sees a bid, price with quantity, that was in neither
      book exactly between the two bid stores of a call that changes both; the same for the ask. */
  lemma TornIff(sh: Shared, actions: seq<Action>, symbol: Symbol)
    requires Coherent(sh) && Possible(sh, actions)
    ensures
      var at := After(sh, actions);
      var seen, before, now := at.table[symbol].top, TopOf(BookBefore(at, symbol)), TopOf(at.table[symbol].book);
      && ((seen.bidPrice, seen.bidQty) !in {(before.bidPrice, before.bidQty), (now.bidPrice, now.bidQty)}
          <==> Midway(at, symbol, 1) && before.bidPrice != now.bidPrice && before.bidQty != now.bidQty)
      && ((seen.askPrice, seen.askQty) !in {(before.askPrice, before.askQty), (now.askPrice, now.askQty)}
          <==> Midway(at, symbol, 3) && before.askPrice != now.askPrice && before.askQty != now.askQty)
  {
    AfterCoherent(sh, actions);
  }

  /** Which new orders make a call that changes both values of a side: exactly those that improve the best price with
      a quantity other than the best one. */
  lemma NewChangesBothIff(b: Book, m: NewOrder)
    requires !Rejected(b, m)
    ensures
      var was, now := TopOf(b), TopOf(HandleNew(b, m));
      if m.side == Buy then
        (was.bidPrice != now.bidPrice && was.bidQty != now.bidQty)
        <==> m.price > was.bidPrice && m.quantity != was.bidQty
      else
        (was.askPrice != now.askPrice && was.askQty != now.askQty)
        <==> (if b.asks == map[] then m.price > 0 else m.price < was.askPrice && m.quantity != was.askQty)
  {
    var after := HandleNew(b, m);
    if m.side == Buy {
      assert m.price in after.bids && after.bids.Keys == b.bids.Keys + {m.price};
      assert m.price !in b.bids ==> after.bids[m.price] == m.quantity;
      assert b.bids != map[] ==> Greatest(b.bids.Keys) in after.bids;
    } else {
      assert m.price in after.asks && after.asks.Keys == b.asks.Keys + {m.price};
      assert m.price !in b.asks ==> after.asks[m.price] == m.quantity;
      assert b.asks != map[] ==> Least(b.asks.Keys) in after.asks;
    }
  }

  /** The very first order of a symbol is enough: after one store a reader sees its price with no quantity. */
  lemma TornReached(s: Symbol, m: NewOrder)
    requires m.side == Buy && m.quantity > 0 && m.price > 0
    ensures
      var actions := [Start(Message(s, New(m))), Store];
      && Possible(Shared(EmptyTable(), Idle), actions)
      && After(Shared(EmptyTable(), Idle), actions).table[s].top == Top(m.price, 0, 0, 0)
      && TopOf(HandleNew(EmptyBook(s), m)) == Top(m.price, m.quantity, 0, 0)
  {
    var sh, start := Shared(EmptyTable(), Idle), Start(Message(s, New(m)));
    assert EmptyTable()[s] == EmptySlot(s);
    assert [start, Store][1..] == [Store] && [Store][1..] == [];
    var mid := Next(sh, start);
    var b := mid.table[s].book;
    assert b.bids == map[m.price := m.quantity] && Greatest({m.price}) == m.price;
    assert b.bids.Keys == {m.price};
    assert Possible(mid, [Store]);
    assert After(mid, [Store]) == After(Next(mid, Store), []);
  }

  /** The calls started by a run of steps. */
  function Started(actions: seq<Action>): seq<Call>
    decreases |actions|
  {
    if actions == [] then []
    else (if actions[0].Start? then [actions[0].call] else []) + Started(actions[1..])
  }

  /** What the table will be once the call in progress has finished. */
  function Settled(sh: Shared): Table
  {
    if sh.writer.Idle? then sh.table else sh.table[sh.writer.symbol := Flush(sh.table[sh.writer.symbol])]
  }

  /** Taken apart into stores, a run of calls still ends in the table the whole calls produce. */
  lemma {:induction false} StepsRefineCalls(sh: Shared, actions: seq<Action>)
    requires Coherent(sh) && Possible(sh, actions)
    ensures Settled(After(sh, actions)) == Slots.Run(Settled(sh), Started(actions))
    decreases |actions|
  {
    if actions != [] {
      var next := Next(sh, actions[0]);
      StepsRefineCalls(next, actions[1..]);
      match actions[0] {
        case Start(c) =>
          assert Settled(next) == Step(sh.table, c);
          assert Started(actions) == [c] + Started(actions[1..]);
        case Store =>
          assert Settled(next) == Settled(sh);
          assert Started(actions) == Started(actions[1..]);
      }
    }
  }
}
