/** The thirteen books, each with the four top-of-book values published beside it. */
module Slots {
  import opened Market
  import opened Books

  datatype Slot = Slot(book: Book, top: Top)

  function EmptySlot(symbol: Symbol): Slot
  {
    Slot(EmptyBook(symbol), NO_TOP)
  }

  /** Indexed by symbol; entry 0 is unused. */
  type Table = t: seq<Slot> | |t| == 14 witness [
    EmptySlot(1), EmptySlot(1), EmptySlot(2), EmptySlot(3), EmptySlot(4), EmptySlot(5), EmptySlot(6),
    EmptySlot(7), EmptySlot(8), EmptySlot(9), EmptySlot(10), EmptySlot(11), EmptySlot(12), EmptySlot(13)]

  function EmptyTable(): Table
  {
    [EmptySlot(1), EmptySlot(1), EmptySlot(2), EmptySlot(3), EmptySlot(4), EmptySlot(5), EmptySlot(6),
     EmptySlot(7), EmptySlot(8), EmptySlot(9), EmptySlot(10), EmptySlot(11), EmptySlot(12), EmptySlot(13)]
  }

  function Flush(slot: Slot): Slot
  {
    slot.(top := TopOf(slot.book))
  }

  /** Update the book, then publish its top. */
  function OnMessage(t: Table, symbol: Symbol, m: BookMsg): Table
  {
    t[symbol := Flush(t[symbol].(book := Apply(t[symbol].book, m)))]
  }

  function ResetBook(t: Table, symbol: Symbol): Table
  {
    t[symbol := EmptySlot(symbol)]
  }

  // ---- what holds after every completed call

  ghost predicate SlotOk(slot: Slot, symbol: Symbol)
  {
    slot.book.symbol == symbol && Agrees(slot.book) && slot.top == TopOf(slot.book)
  }

  ghost predicate TableOk(t: Table)
  {
    forall s: Symbol :: SlotOk(t[s], s)
  }

  lemma ApplyKeepsSymbol(b: Book, m: BookMsg)
    ensures Apply(b, m).symbol == b.symbol
  {
  }

  lemma EmptyTableOk()
    ensures TableOk(EmptyTable())
  {
    forall s: Symbol
      ensures SlotOk(EmptyTable()[s], s)
    {
      assert EmptyTable()[s] == EmptySlot(s);
      EmptyAgrees(s);
    }
  }

  lemma OnMessageOkIff(t: Table, symbol: Symbol, m: BookMsg)
    requires TableOk(t)
    ensures TableOk(OnMessage(t, symbol, m)) <==> Fits(t[symbol].book, m)
  {
    assert SlotOk(t[symbol], symbol);
    var t' := OnMessage(t, symbol, m);
    ApplyAgreesIff(t[symbol].book, m);
    ApplyKeepsSymbol(t[symbol].book, m);
    assert SlotOk(t'[symbol], symbol) <==> Fits(t[symbol].book, m);
    forall s: Symbol | s != symbol
      ensures SlotOk(t'[s], s)
    {
      assert SlotOk(t[s], s);
    }
  }

  lemma ResetOk(t: Table, symbol: Symbol)
    requires TableOk(t)
    ensures TableOk(ResetBook(t, symbol))
  {
    EmptyAgrees(symbol);
    forall s: Symbol
      ensures SlotOk(ResetBook(t, symbol)[s], s)
    {
      assert SlotOk(t[s], s);
    }
  }

  // ---- runs of calls

  datatype Call = Message(symbol: Symbol, msg: BookMsg) | Reset(symbol: Symbol)

  function Step(t: Table, c: Call): Table
  {
    match c
    case Message(s, m) => OnMessage(t, s, m)
    case Reset(s) => ResetBook(t, s)
  }

  ghost predicate CallFits(t: Table, c: Call)
  {
    c.Message? ==> Fits(t[c.symbol].book, c.msg)
  }

  function Run(t: Table, calls: seq<Call>): Table
    decreases |calls|
  {
    if calls == [] then t else Run(Step(t, calls[0]), calls[1..])
  }

  ghost predicate RunFits(t: Table, calls: seq<Call>)
    decreases |calls|
  {
    calls != [] ==> CallFits(t, calls[0]) && RunFits(Step(t, calls[0]), calls[1..])
  }

  lemma {:induction false} RunOk(t: Table, calls: seq<Call>)
    requires TableOk(t) && RunFits(t, calls)
    ensures TableOk(Run(t, calls))
    decreases |calls|
  {
    if calls != [] {
      match calls[0] {
        case Message(s, m) => OnMessageOkIff(t, s, m);
        case Reset(s) => ResetOk(t, s);
      }
      RunOk(Step(t, calls[0]), calls[1..]);
    }
  }

  /** After every completed call of any fitting run, the four published values of every symbol are what a scan of
      that symbol's orders finds. */
  lemma PublishedTopIsNaive(calls: seq<Call>, symbol: Symbol)
    requires RunFits(EmptyTable(), calls)
    ensures
      var slot := Run(EmptyTable(), calls)[symbol];
      && IsFront(slot.book.orders, true, slot.top.bidPrice, slot.top.bidQty)
      && IsFront(slot.book.orders, false, slot.top.askPrice, slot.top.askQty)
  {
    EmptyTableOk();
    RunOk(EmptyTable(), calls);
    var slot := Run(EmptyTable(), calls)[symbol];
    assert SlotOk(slot, symbol);
    TopIsNaive(slot.book);
  }
}
