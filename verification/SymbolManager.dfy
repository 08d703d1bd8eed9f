/** The thirteen slots and the account as the objects the threads update in place. */
module SymbolManagers {
  import opened Market
  import opened OrderBooks
  import opened ArbSnapshots
  import Books
  import Slots
  import Accounting

  class SymbolSlot {
    const book: OrderBook
    var bestBidPrice: int
    var bestBidQty: U32
    var bestAskPrice: int
    var bestAskQty: U32
    var position: int

    function View(): Slots.Slot
      reads this, book
    {
      Slots.Slot(book.State(), Books.Top(bestBidPrice, bestBidQty, bestAskPrice, bestAskQty))
    }

    constructor (symbol: Symbol)
      ensures View() == Slots.EmptySlot(symbol) && position == 0 && fresh(book)
    {
      book := new OrderBook(symbol);
      bestBidPrice, bestBidQty, bestAskPrice, bestAskQty, position := 0, 0, 0, 0, 0;
    }

    method FlushTopOfBook()
      modifies this
      ensures View() == Slots.Flush(old(View())) && position == old(position)
    {
      var top := book.Front();
      bestBidPrice := top.bidPrice;
      bestBidQty := top.bidQty;
      bestAskPrice := top.askPrice;
      bestAskQty := top.askQty;
    }
  }

  /** One slot per symbol, all separate. */
  method MakeSlots() returns (made: seq<SymbolSlot?>, ghost repr: set<object>)
    ensures |made| == 14 && fresh(repr)
    ensures forall s: Symbol :: Made(made, s, repr)
    ensures forall s: Symbol, t: Symbol :: Apart(made, s, t)
  {
    made, repr := [null], {};
    for id := 1 to 14
      invariant |made| == id && fresh(repr)
      invariant forall s: Symbol | s < id :: Made(made, s, repr)
      invariant forall s: Symbol, t: Symbol | s < id && t < id :: Apart(made, s, t)
    {
      var slot := new SymbolSlot(id);
      ghost var before := made;
      made := made + [slot];
      repr := repr + {slot, slot.book};
      forall s: Symbol | s < id + 1
        ensures Made(made, s, repr)
      {
        assert s < id ==> Made(before, s, repr - {slot, slot.book});
      }
      forall s: Symbol, t: Symbol | s < id + 1 && t < id + 1
        ensures Apart(made, s, t)
      {
        assert s < id ==> Made(before, s, repr - {slot, slot.book});
        assert t < id ==> Made(before, t, repr - {slot, slot.book});
        assert s < id && t < id ==> Apart(before, s, t);
      }
    }
  }

  ghost predicate Apart(made: seq<SymbolSlot?>, s: Symbol, t: Symbol)
  {
    s < |made| && t < |made| && made[s] != null && made[t] != null &&
    (s != t ==> made[s] != made[t] && made[s].book != made[t].book)
  }

  ghost predicate Made(made: seq<SymbolSlot?>, s: Symbol, repr: set<object>)
    reads repr
  {
    && s < |made| && made[s] != null && made[s] in repr && made[s].book in repr
    && made[s].View() == Slots.EmptySlot(s) && made[s].position == 0
  }

  class SymbolManager {
    const slots: seq<SymbolSlot?>     // entry 0 is unused
    const avgEntryPrice: array<real>
    var totalPnl: real

    ghost const Repr: set<object>
    ghost var Table: Slots.Table
    ghost var Account: Accounting.Account

    ghost predicate Separate(s: Symbol, t: Symbol)
      requires |slots| == 14
    {
      && slots[s] != null && slots[s] in Repr && slots[s].book in Repr
      && slots[t] != null
      && (s != t ==> slots[s] != slots[t] && slots[s].book != slots[t].book)
    }

    /** What the two fields kept for reasoning stand for. */
    ghost predicate Shown(s: Symbol)
      requires |slots| == 14 && Separate(s, s) && |Account.position| == 14
      reads this, Repr
    {
      slots[s].View() == Table[s] && slots[s].position == Account.position[s]
    }

    /** The objects are laid out once and for all. */
    ghost predicate Laid()
    {
      && this in Repr && avgEntryPrice in Repr
      && |slots| == 14 && avgEntryPrice.Length == 14
      && (forall s: Symbol, t: Symbol :: Separate(s, t))
    }

    ghost predicate Valid()
      reads this, Repr
    {
      && Laid() && Accounting.Shaped(Account)
      && (forall s: Symbol :: Separate(s, s) && Shown(s))
      && avgEntryPrice[..] == Account.avgEntry && totalPnl == Account.pnl
    }

    constructor ()
      ensures Valid() && fresh(Repr)
      ensures Table == Slots.EmptyTable() && Account == Accounting.EmptyAccount()
    {
      ghost var repr: set<object>;
      var made;
      made, repr := MakeSlots();
      var avg := new real[14](_ => 0.0);
      slots, avgEntryPrice, totalPnl := made, avg, 0.0;
      Table, Account := Slots.EmptyTable(), Accounting.EmptyAccount();
      Repr := repr + {this, avg};
      new;
      forall s: Symbol
        ensures Separate(s, s) && Shown(s)
      {
        assert Made(made, s, repr);
        assert Slots.EmptyTable()[s] == Slots.EmptySlot(s);
      }
      forall s: Symbol, t: Symbol
        ensures Separate(s, t)
      {
        assert Made(made, s, repr) && Made(made, t, repr) && Apart(made, s, t);
      }
      assert avg[..] == Account.avgEntry;
    }

    /** Route one book message to its slot, then publish. */
    method OnMessage(symbol: Symbol, m: BookMsg)
      requires Valid()
      modifies Repr
      ensures Valid()
      ensures Table == Slots.OnMessage(old(Table), symbol, m) && Account == old(Account)
    {
      assert Separate(symbol, symbol) && Shown(symbol);
      var s := slots[symbol];
      match m {
        case New(n) => s.book.HandleNewOrder(n);
        case Delete(d) => s.book.HandleDeleteOrder(d);
        case Modify(c) => s.book.HandleModifyOrder(c);
        case Executed(t) => s.book.HandleTrade(t);
      }
      s.FlushTopOfBook();
      Table := Slots.OnMessage(Table, symbol, m);
      OthersUntouched(symbol);
    }

    twostate lemma OthersUntouched(symbol: Symbol)
      requires old(Valid()) && Account == old(Account)
      requires Separate(symbol, symbol)
      requires Shown(symbol)
      requires Table == old(Table)[symbol := Table[symbol]]
      requires unchanged(Repr - {this, slots[symbol], slots[symbol].book}) && totalPnl == old(totalPnl)
      ensures Valid()
    {
      forall t: Symbol
        ensures Separate(t, t) && Shown(t)
      {
        assert Separate(t, t) && Separate(t, symbol);
        assert old(Shown(t));
      }
    }

    /** A snapshot clears the book and the published values. */
    method ResetBook(symbol: Symbol)
      requires Valid()
      modifies Repr
      ensures Valid()
      ensures Table == Slots.ResetBook(old(Table), symbol) && Account == old(Account)
    {
      assert Separate(symbol, symbol) && Shown(symbol);
      var s := slots[symbol];
      s.book.Clear(symbol);
      s.bestBidPrice := 0;
      s.bestBidQty := 0;
      s.bestAskPrice := 0;
      s.bestAskQty := 0;
      Table := Slots.ResetBook(Table, symbol);
      OthersUntouched(symbol);
    }

    /** One of our orders was filled. The addition to the profit total is taken as one step here. */
    method OnFill(symbol: Symbol, side: Side, qty: U32, price: int)
      requires Valid()
      modifies Repr
      ensures Valid()
      ensures Account == Accounting.OnFill(old(Account), Accounting.Fill(symbol, side, qty, price))
      ensures Table == old(Table)
    {
      assert Separate(symbol, symbol) && Shown(symbol);
      var s := slots[symbol];
      var held, avg := s.position, avgEntryPrice[symbol];
      s.position := WrapI32(if side == Buy then held + WrapI32(qty) else held - WrapI32(qty));
      if side == Buy {
        avg := BuyAverage(held, avg, qty, price);
        avgEntryPrice[symbol] := avg;
      }
      if (side == Sell && held > 0) || (side == Buy && held < 0) {
        var realized := ClosingProfit(held, avg, side, qty, price);
        totalPnl := totalPnl + realized;
      }
      Account := Accounting.OnFill(Account, Accounting.Fill(symbol, side, qty, price));
      assert avgEntryPrice[..] == Account.avgEntry;
      forall t: Symbol
        ensures Separate(t, t) && Shown(t)
      {
        assert Separate(t, t) && Separate(t, symbol);
        assert old(Shown(t));
      }
    }

    /** Profit on the part of the position this fill closes. */
    method ClosingProfit(held: int, avg: real, side: Side, qty: U32, price: int) returns (r: real)
      requires (side == Sell && held > 0) || (side == Buy && held < 0)
      ensures r == Accounting.Booked(held, avg, side, qty, price)
    {
      var closingQty := Min(qty, Abs(held));
      if side == Sell {
        r := (price as real - avg) * closingQty as real;
      } else {
        r := (avg - price as real) * closingQty as real;
      }
    }

    /** The new average entry price after a buy. */
    method BuyAverage(held: int, avg: real, qty: U32, price: int) returns (r: real)
      ensures r == Accounting.Averaged(held, avg, Buy, qty, price)
    {
      var oldValue := avg * (if held > 0 then held else 0) as real;
      var newQty := held + WrapI32(qty);
      if newQty > 0 {
        r := (oldValue + WrapU32(price * qty) as real) / newQty as real;
      } else {
        r := price as real;
      }
    }

    method BestBidPrice(symbol: Symbol) returns (price: int)
      requires Valid()
      ensures price == Table[symbol].top.bidPrice
    {
      assert Separate(symbol, symbol) && Shown(symbol);
      price := slots[symbol].bestBidPrice;
    }

    method BestAskPrice(symbol: Symbol) returns (price: int)
      requires Valid()
      ensures price == Table[symbol].top.askPrice
    {
      assert Separate(symbol, symbol) && Shown(symbol);
      price := slots[symbol].bestAskPrice;
    }

    method GetPosition(symbol: Symbol) returns (position: int)
      requires Valid()
      ensures position == Account.position[symbol]
    {
      assert Separate(symbol, symbol) && Shown(symbol);
      position := slots[symbol].position;
    }

    method ReadDorm(i: nat) returns (d: DormData)
      requires Valid() && i < DORM_COUNT
      ensures Reads(d, Table[Dorm(i)], Account.position[Dorm(i)])
    {
      assert Separate(Dorm(i), Dorm(i)) && Shown(Dorm(i));
      var s := slots[Dorm(i)];
      d := DormData(s.bestBidPrice, s.bestAskPrice, s.bestBidQty, s.bestAskQty, s.position);
    }

    /** All published values in one pass, with the basket sums. */
    method Snapshot() returns (snap: ArbSnapshot)
      requires Valid()
      ensures Shows(snap, Table, Account.position)
    {
      var dorms: seq<DormData> := [];
      var navAsk, navBid, askMissing, bidMissing := 0, 0, false, false;
      for i := 0 to DORM_COUNT
        invariant |dorms| == i
        invariant forall j | 0 <= j < i :: Reads(dorms[j], Table[Dorm(j)], Account.position[Dorm(j)])
        invariant navAsk == SumAsks(dorms) && navBid == SumBids(dorms)
        invariant askMissing <==> exists j | 0 <= j < i :: dorms[j].askPrice == 0
        invariant bidMissing <==> exists j | 0 <= j < i :: dorms[j].bidPrice == 0
      {
        var d := ReadDorm(i);
        ghost var before := dorms;
        dorms := dorms + [d];
        assert dorms[..i] == before;
        if d.askPrice == 0 { askMissing := true; } else { navAsk := navAsk + d.askPrice; }
        if d.bidPrice == 0 { bidMissing := true; } else { navBid := navBid + d.bidPrice; }
      }
      assert Separate(UNDY, UNDY) && Shown(UNDY);
      var u := slots[UNDY];
      snap := ArbSnapshot(dorms, u.bestBidPrice, u.bestAskPrice, u.bestBidQty, u.bestAskQty, u.position,
                          navAsk, navBid, askMissing, bidMissing);
    }
  }
}
