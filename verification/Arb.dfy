/** Fund arbitrage as a value: which order a fill belongs to, create and redeem settlement, and the redemption trade. */
module Arb {
  import opened Market
  import opened Sums
  import opened Accounting
  import opened ArbSnapshots

  datatype FillEvent = FillEvent(id: OrderId, qty: U32, price: I32, closed: bool)

  datatype Target = Target(symbol: Symbol, side: Side)

  datatype SentOrder = SentOrder(id: OrderId, symbol: Symbol, side: Side, qty: int, price: int)

  /** The account, the orders of the arbitrage and of the market maker, and what has been sent. */
  datatype Book = Book(
    account: Account, orders: map<OrderId, Target>, mmOrders: map<OrderId, Target>, nextId: nat, inProgress: bool,
    blueBid: OrderId, blueAsk: OrderId, sent: seq<SentOrder>)

  // ---- fills

  function Credit(b: Book, t: Target, ev: FillEvent): Book
    requires Shaped(b.account)
  {
    b.(account := OnFill(b.account, Fill(t.symbol, t.side, ev.qty, ev.price)))
  }

  /** Arbitrage orders first, then the market maker's; a closing fill forgets the order. */
  function RouteFill(b: Book, ev: FillEvent): (r: Book)
    requires Shaped(b.account)
    ensures Shaped(r.account)
  {
    if ev.id in b.orders then
      Credit(b, b.orders[ev.id], ev).(orders := if ev.closed then b.orders - {ev.id} else b.orders)
    else if ev.id in b.mmOrders then
      var c := Credit(b, b.mmOrders[ev.id], ev);
      if !ev.closed then c
      else c.(mmOrders := b.mmOrders - {ev.id},
              blueBid := if ev.id == b.blueBid then 0 else b.blueBid,
              blueAsk := if ev.id == b.blueAsk then 0 else b.blueAsk)
    else b
  }

  function Deliver(b: Book, evs: seq<FillEvent>): (r: Book)
    requires Shaped(b.account)
    ensures Shaped(r.account)
    decreases |evs|
  {
    if evs == [] then b else Deliver(RouteFill(b, evs[0]), evs[1..])
  }

  lemma {:induction false} DeliverAppend(b: Book, x: seq<FillEvent>, y: seq<FillEvent>)
    requires Shaped(b.account)
    ensures Deliver(b, x + y) == Deliver(Deliver(b, x), y)
    decreases |x|
  {
    if x == [] {
      assert x + y == y;
    } else {
      assert (x + y)[0] == x[0] && (x + y)[1..] == x[1..] + y;
      DeliverAppend(RouteFill(b, x[0]), x[1..], y);
    }
  }

  // ---- orders

  function Send(b: Book, symbol: Symbol, side: Side, qty: int, price: int): Book
  {
    b.(orders := b.orders[b.nextId := Target(symbol, side)], nextId := b.nextId + 1,
       sent := b.sent + [SentOrder(b.nextId, symbol, side, qty, price)])
  }

  /** Sell orders for the first `k` dorms at the bids of the snapshot. */
  function SellDorms(b: Book, snap: ArbSnapshot, qty: int, k: nat): (r: Book)
    requires k <= DORM_COUNT == |snap.dorms|
    ensures r.account == b.account
  {
    if k == 0 then b else Send(SellDorms(b, snap, qty, k - 1), Dorm(k - 1), Sell, qty, snap.dorms[k - 1].bidPrice)
  }

  // ---- settlement

  /** The first `k` dorms move by `qty` at the given prices, without an order. */
  function MoveDorms(a: Account, side: Side, qty: U32, marks: seq<int>, k: nat): (r: Account)
    requires Shaped(a) && k <= DORM_COUNT == |marks|
    ensures Shaped(r)
  {
    if k == 0 then a
    else OnFill(MoveDorms(a, side, qty, marks, k - 1), Fill(Dorm(k - 1), side, qty, marks[k - 1]))
  }

  /** Ten dorms become one fund, `qty` times. */
  function SettleCreation(a: Account, qty: U32, marks: seq<int>, undyPrice: int): Account
    requires Shaped(a) && |marks| == DORM_COUNT
  {
    OnFill(MoveDorms(a, Sell, qty, marks, DORM_COUNT), Fill(UNDY, Buy, qty, undyPrice))
  }

  /** One fund becomes ten dorms, `qty` times. */
  function SettleRedemption(a: Account, qty: U32, marks: seq<int>, undyPrice: int): Account
    requires Shaped(a) && |marks| == DORM_COUNT
  {
    MoveDorms(OnFill(a, Fill(UNDY, Sell, qty, undyPrice)), Buy, qty, marks, DORM_COUNT)
  }

  predicate IsDorm(s: Symbol) { 3 <= s <= 12 }

  /** Positions far enough from the ends of 32 bits to move by `qty`. */
  ghost predicate HasSlack(a: Account, qty: int)
  {
    Shaped(a) && forall s: Symbol :: -TWO_31 <= a.position[s] - qty && a.position[s] + qty < TWO_31
  }

  lemma MovedExactly(held: int, side: Side, qty: U32)
    requires qty < TWO_31 && -TWO_31 <= held - qty && held + qty < TWO_31
    ensures Moved(held, side, qty) == if side == Buy then held + qty else held - qty
  {
    WrapI32Keeps(qty);
    WrapI32Keeps(held + qty);
    WrapI32Keeps(held - qty);
  }

  lemma {:induction false} MoveDormsPositions(a: Account, side: Side, qty: U32, marks: seq<int>, k: nat)
    requires HasSlack(a, qty) && qty < TWO_31 && k <= DORM_COUNT == |marks|
    ensures
      var r := MoveDorms(a, side, qty, marks, k);
      forall s: Symbol ::
        r.position[s] == a.position[s] + if 3 <= s < 3 + k then (if side == Buy then qty else 0 - qty) else 0
  {
    if k > 0 {
      MoveDormsPositions(a, side, qty, marks, k - 1);
      MovedExactly(a.position[Dorm(k - 1)], side, qty);
    }
  }

  /** Settlement trades the fund for its dorms one for one: every dorm's position plus the fund's stays the same, and
      no other position moves. */
  lemma SettlementPreserves(a: Account, qty: U32, marks: seq<int>, undyPrice: int)
    requires HasSlack(a, qty) && qty < TWO_31 && |marks| == DORM_COUNT
    ensures
      var c, r := SettleCreation(a, qty, marks, undyPrice), SettleRedemption(a, qty, marks, undyPrice);
      && c.position[UNDY] == a.position[UNDY] + qty && r.position[UNDY] == a.position[UNDY] - qty
      && (forall s: Symbol | IsDorm(s) ::
            c.position[s] + c.position[UNDY] == r.position[s] + r.position[UNDY] == a.position[s] + a.position[UNDY])
      && (forall s: Symbol | !IsDorm(s) && s != UNDY :: c.position[s] == r.position[s] == a.position[s])
  {
    MovedExactly(a.position[UNDY], Buy, qty);
    MovedExactly(a.position[UNDY], Sell, qty);
    MoveDormsPositions(a, Sell, qty, marks, DORM_COUNT);
    var b := OnFill(a, Fill(UNDY, Sell, qty, undyPrice));
    forall s: Symbol | IsDorm(s)
      ensures MoveDorms(b, Buy, qty, marks, DORM_COUNT).position[s] == a.position[s] + qty
    {
      MoveDormsFrom(a, b, Buy, qty, marks, DORM_COUNT, s);
      MoveDormsPositions(a, Buy, qty, marks, DORM_COUNT);
    }
    forall s: Symbol | !IsDorm(s)
      ensures MoveDorms(b, Buy, qty, marks, DORM_COUNT).position[s] == b.position[s]
    {
      MoveDormsLeaves(b, Buy, qty, marks, DORM_COUNT, s);
    }
  }

  lemma {:induction false} MoveDormsFrom(a: Account, b: Account, side: Side, qty: U32, marks: seq<int>, k: nat,
                                         s: Symbol)
    requires Shaped(a) && Shaped(b) && k <= DORM_COUNT == |marks| && IsDorm(s)
    requires forall t: Symbol | IsDorm(t) :: a.position[t] == b.position[t]
    ensures MoveDorms(a, side, qty, marks, k).position[s] == MoveDorms(b, side, qty, marks, k).position[s]
  {
    if k > 0 {
      MoveDormsFrom(a, b, side, qty, marks, k - 1, s);
      MoveDormsFrom(a, b, side, qty, marks, k - 1, Dorm(k - 1));
    }
  }

  lemma {:induction false} MoveDormsLeaves(a: Account, side: Side, qty: U32, marks: seq<int>, k: nat, s: Symbol)
    requires Shaped(a) && k <= DORM_COUNT == |marks| && !IsDorm(s)
    ensures MoveDorms(a, side, qty, marks, k).position[s] == a.position[s]
  {
    if k > 0 {
      MoveDormsLeaves(a, side, qty, marks, k - 1, s);
    }
  }

  // ---- orders that fill at their limit or better

  /** An order still to be filled: how much is left, at what limit. */
  datatype Leg = Leg(symbol: Symbol, side: Side, left: int, limit: int)

  type Sheet = map<OrderId, Leg>

  predicate SheetOk(sheet: Sheet)
  {
    forall id | id in sheet :: 0 <= sheet[id].left && (sheet[id].side == Buy || sheet[id].side == Sell)
  }

  predicate FillFits(sheet: Sheet, ev: FillEvent)
  {
    ev.id in sheet &&
    var leg := sheet[ev.id];
    && ev.qty <= leg.left && (ev.closed <==> ev.qty == leg.left)
    && (if leg.side == Buy then ev.price <= leg.limit else ev.price >= leg.limit)
  }

  /** A fill of any other order leaves the sheet alone. */
  function AfterFill(sheet: Sheet, ev: FillEvent): Sheet
  {
    if ev.id !in sheet then sheet
    else if ev.closed then sheet - {ev.id}
    else sheet[ev.id := sheet[ev.id].(left := sheet[ev.id].left - ev.qty)]
  }

  /** Every fill of an order of the sheet is within what is left and at its limit or better. Fills of other orders may
      come in between. */
  predicate WellFilled(sheet: Sheet, evs: seq<FillEvent>)
    decreases |evs|
  {
    evs != [] ==>
      (evs[0].id in sheet ==> FillFits(sheet, evs[0])) && WellFilled(AfterFill(sheet, evs[0]), evs[1..])
  }

  function Rest(sheet: Sheet, evs: seq<FillEvent>): Sheet
    requires WellFilled(sheet, evs)
    decreases |evs|
  {
    if evs == [] then sheet else Rest(AfterFill(sheet, evs[0]), evs[1..])
  }

  /** What a symbol's position will still move by. */
  function Due(sheet: Sheet, s: Symbol): map<OrderId, int>
  {
    map id | id in sheet && sheet[id].symbol == s :: Signed(sheet[id].side, sheet[id].left)
  }

  /** What filling the rest of an order at its limit brings in. */
  function Promise(leg: Leg): int
  {
    0 - Signed(leg.side, leg.left) * leg.limit
  }

  /** What the orders will still bring in at least. */
  function Worth(sheet: Sheet): map<OrderId, int>
  {
    map id | id in sheet :: Promise(sheet[id])
  }

  function Gross(sheet: Sheet): map<OrderId, int>
  {
    map id | id in sheet :: sheet[id].left
  }

  /** Money in (positive) or out, fill by fill, for the orders of the sheet. */
  function CashFrom(sheet: Sheet, evs: seq<FillEvent>): int
    requires WellFilled(sheet, evs)
    decreases |evs|
  {
    if evs == [] then 0
    else
      (if evs[0].id in sheet then 0 - Signed(sheet[evs[0].id].side, evs[0].qty) * evs[0].price else 0)
        + CashFrom(AfterFill(sheet, evs[0]), evs[1..])
  }

  lemma FillTotals(sheet: Sheet, ev: FillEvent, s: Symbol)
    requires SheetOk(sheet) && FillFits(sheet, ev)
    ensures
      var sheet', leg := AfterFill(sheet, ev), sheet[ev.id];
      && SheetOk(sheet')
      && Total(Due(sheet', s)) == Total(Due(sheet, s)) - (if leg.symbol == s then Signed(leg.side, ev.qty) else 0)
      && Total(Gross(sheet')) == Total(Gross(sheet)) - ev.qty
  {
    var sheet', leg := AfterFill(sheet, ev), sheet[ev.id];
    TotalChange(Gross(sheet), Gross(sheet'), ev.id, ev.qty);
    if leg.symbol == s {
      TotalChange(Due(sheet, s), Due(sheet', s), ev.id, Signed(leg.side, ev.qty));
    } else {
      assert Due(sheet', s) == Due(sheet, s);
    }
  }

  lemma FillWorth(sheet: Sheet, ev: FillEvent)
    requires SheetOk(sheet) && FillFits(sheet, ev)
    ensures
      var leg := sheet[ev.id];
      && Total(Worth(AfterFill(sheet, ev))) == Total(Worth(sheet)) + Signed(leg.side, ev.qty) * leg.limit
      && 0 - Signed(leg.side, ev.qty) * ev.price >= 0 - Signed(leg.side, ev.qty) * leg.limit
  {
    var leg := sheet[ev.id];
    var q, left := Signed(leg.side, ev.qty), Signed(leg.side, leg.left);
    Products(left, q, leg.limit, ev.price);
    assert Signed(leg.side, leg.left - ev.qty) == left - q;
    assert Promise(leg) == 0 - left * leg.limit;
    TotalChange(Worth(sheet), Worth(AfterFill(sheet, ev)), ev.id, 0 - q * leg.limit);
  }

  lemma Products(left: int, q: int, limit: int, price: int)
    ensures (left - q) * limit == left * limit - q * limit
    ensures q >= 0 && price <= limit ==> q * price <= q * limit
    ensures q <= 0 && price >= limit ==> q * price <= q * limit
  {
  }

  /** Filling at the limit or better brings in at least what the limits promise. */
  lemma {:induction false} CashAtLeast(sheet: Sheet, evs: seq<FillEvent>)
    requires SheetOk(sheet) && WellFilled(sheet, evs)
    ensures CashFrom(sheet, evs) + Total(Worth(Rest(sheet, evs))) >= Total(Worth(sheet))
    decreases |evs|
  {
    if evs != [] {
      if evs[0].id in sheet {
        FillWorth(sheet, evs[0]);
        FillTotals(sheet, evs[0], 1);
      }
      CashAtLeast(AfterFill(sheet, evs[0]), evs[1..]);
    }
  }

  /** The account's routes know every order of the sheet. */
  predicate Routes(b: Book, sheet: Sheet)
  {
    forall id | id in sheet :: id in b.orders && b.orders[id] == Target(sheet[id].symbol, sheet[id].side)
  }

  // fills of other orders

  /** What a fill moves a symbol's position by, through whichever order it names. */
  function MoveOf(b: Book, ev: FillEvent, s: Symbol): int
  {
    if ev.id in b.orders then
      (if b.orders[ev.id].symbol == s then Signed(b.orders[ev.id].side, ev.qty) else 0)
    else if ev.id in b.mmOrders then
      (if b.mmOrders[ev.id].symbol == s then Signed(b.mmOrders[ev.id].side, ev.qty) else 0)
    else 0
  }

  /** The signed sum of the fills of a symbol whose orders are not on the sheet. */
  function Foreign(b: Book, sheet: Sheet, evs: seq<FillEvent>, s: Symbol): int
    requires Shaped(b.account)
    decreases |evs|
  {
    if evs == [] then 0
    else
      (if evs[0].id in sheet then 0 else MoveOf(b, evs[0], s))
        + Foreign(RouteFill(b, evs[0]), AfterFill(sheet, evs[0]), evs[1..], s)
  }

  function ForeignQty(sheet: Sheet, evs: seq<FillEvent>): nat
    decreases |evs|
  {
    if evs == [] then 0
    else (if evs[0].id in sheet then 0 else evs[0].qty) + ForeignQty(AfterFill(sheet, evs[0]), evs[1..])
  }

  /** Every position can take all that is left, and `spare` more, without leaving 32 bits. */
  ghost predicate HasRoom(b: Book, sheet: Sheet, spare: int)
  {
    HasSlack(b.account, Total(Gross(sheet)) + spare)
  }

  /** What has come in, plus what is still due. */
  ghost function Expected(b: Book, sheet: Sheet, s: Symbol): int
    requires Shaped(b.account)
  {
    b.account.position[s] + Total(Due(sheet, s))
  }

  lemma RoutesKept(b: Book, sheet: Sheet, ev: FillEvent)
    requires Shaped(b.account) && Routes(b, sheet) && (ev.id in sheet ==> FillFits(sheet, ev))
    ensures Routes(RouteFill(b, ev), AfterFill(sheet, ev))
  {
  }

  lemma FillConserves(b: Book, sheet: Sheet, ev: FillEvent, spare: nat)
    requires SheetOk(sheet) && FillFits(sheet, ev) && Routes(b, sheet) && HasRoom(b, sheet, spare)
    ensures
      var b', sheet' := RouteFill(b, ev), AfterFill(sheet, ev);
      && SheetOk(sheet') && HasRoom(b', sheet', spare)
      && forall s: Symbol :: Expected(b', sheet', s) == Expected(b, sheet, s)
  {
    var leg := sheet[ev.id];
    TotalNonNegative(Gross(sheet));
    assert ev.id in Gross(sheet);
    MovedExactly(b.account.position[leg.symbol], leg.side, ev.qty);
    forall s: Symbol
      ensures Total(Due(AfterFill(sheet, ev), s))
           == Total(Due(sheet, s)) - (if leg.symbol == s then Signed(leg.side, ev.qty) else 0)
    {
      FillTotals(sheet, ev, s);
    }
    FillTotals(sheet, ev, leg.symbol);
  }

  lemma CreditMoves(b: Book, t: Target, ev: FillEvent, room: nat)
    requires HasSlack(b.account, room + ev.qty)
    ensures
      var a := Credit(b, t, ev).account;
      && HasSlack(a, room)
      && forall s: Symbol ::
           a.position[s] == b.account.position[s] + if t.symbol == s then Signed(t.side, ev.qty) else 0
  {
    MovedExactly(b.account.position[t.symbol], t.side, ev.qty);
  }

  /** A fill of another order moves its own symbol and nothing else. */
  lemma ForeignMoves(b: Book, ev: FillEvent, room: nat)
    requires HasSlack(b.account, room + ev.qty)
    ensures
      var b' := RouteFill(b, ev);
      && HasSlack(b'.account, room)
      && forall s: Symbol :: b'.account.position[s] == b.account.position[s] + MoveOf(b, ev, s)
  {
    if ev.id in b.orders {
      CreditMoves(b, b.orders[ev.id], ev, room);
    } else if ev.id in b.mmOrders {
      CreditMoves(b, b.mmOrders[ev.id], ev, room);
    }
  }

  /** What has come in plus what is still due is the same at every moment, in whatever order the fills arrive, but for
      the signed sum of the fills of other orders. */
  lemma {:induction false} DeliverConserves(b: Book, sheet: Sheet, evs: seq<FillEvent>, spare: nat)
    requires SheetOk(sheet) && WellFilled(sheet, evs) && Routes(b, sheet)
    requires HasRoom(b, sheet, ForeignQty(sheet, evs) + spare)
    ensures
      var b', sheet' := Deliver(b, evs), Rest(sheet, evs);
      && SheetOk(sheet') && Routes(b', sheet') && HasRoom(b', sheet', spare)
      && forall s: Symbol :: Expected(b', sheet', s) == Expected(b, sheet, s) + Foreign(b, sheet, evs, s)
    decreases |evs|
  {
    if evs != [] {
      var next, sheet', rest := RouteFill(b, evs[0]), AfterFill(sheet, evs[0]), ForeignQty(sheet, evs) + spare;
      RoutesKept(b, sheet, evs[0]);
      if evs[0].id in sheet {
        FillConserves(b, sheet, evs[0], rest);
      } else {
        TotalNonNegative(Gross(sheet));
        ForeignMoves(b, evs[0], Total(Gross(sheet)) + rest - evs[0].qty);
      }
      DeliverConserves(next, sheet', evs[1..], spare);
    }
  }

  /** No order outside the sheet is for this symbol. */
  predicate Apart(b: Book, sheet: Sheet, s: Symbol)
  {
    && (forall id | id in b.orders && id !in sheet :: b.orders[id].symbol != s)
    && (forall id | id in b.mmOrders :: b.mmOrders[id].symbol != s)
  }

  /** Then the fills of other orders leave the symbol alone, and no such order turns up. */
  lemma {:induction false} ForeignApart(b: Book, sheet: Sheet, evs: seq<FillEvent>, s: Symbol)
    requires Shaped(b.account) && WellFilled(sheet, evs) && Routes(b, sheet) && Apart(b, sheet, s)
    ensures Foreign(b, sheet, evs, s) == 0 && Apart(Deliver(b, evs), Rest(sheet, evs), s)
    decreases |evs|
  {
    if evs != [] {
      RoutesKept(b, sheet, evs[0]);
      ForeignApart(RouteFill(b, evs[0]), AfterFill(sheet, evs[0]), evs[1..], s);
    }
  }

  // ---- the redemption trade

  /** What the exchange and the fund service answer, and the fills that arrive at each wait. */
  datatype Replies = Replies(
    bought: bool, whileSending: seq<FillEvent>,
    filled: bool, whileWaiting: seq<FillEvent>,
    redeemed: bool, marks: seq<int>, whileSelling: seq<FillEvent>)

  predicate Attempts(b: Book, snap: ArbSnapshot)
  {
    && !snap.bidMissing && snap.undyAskPrice != 0 && !b.inProgress
    && snap.navBid - snap.undyAskPrice > 0 && RedemptionSize(snap) > 0
  }

  /** Buy the fund, redeem it, sell the dorms. The result says whether an attempt was made. */
  function TryRedemption(b: Book, snap: ArbSnapshot, r: Replies): (Book, bool)
    requires Shaped(b.account) && |snap.dorms| == DORM_COUNT == |r.marks|
  {
    if !Attempts(b, snap) then (b, false)
    else
      var qty := RedemptionSize(snap);
      var sent := Send(b.(inProgress := true), UNDY, Buy, qty, snap.undyAskPrice);
      var answered := Deliver(sent, r.whileSending);
      if !r.bought then (answered.(inProgress := false), false)
      else
        var waited := Deliver(answered, r.whileWaiting);
        if !r.filled then (waited.(inProgress := false), true)
        else if !r.redeemed then (waited, true)
        else
          var settled := waited.(account := SettleRedemption(waited.account, qty as U32, r.marks, snap.undyAskPrice));
          (Deliver(SellDorms(settled, snap, qty, DORM_COUNT), r.whileSelling), true)
  }

  /** The order for the fund. */
  function BuySheet(b: Book, snap: ArbSnapshot): Sheet
  {
    map[b.nextId := Leg(UNDY, Buy, RedemptionSize(snap), snap.undyAskPrice)]
  }

  /** The orders for the first `k` dorms, numbered from `first`. */
  function SellSheet(first: nat, snap: ArbSnapshot, qty: int, k: nat): Sheet
    requires k <= DORM_COUNT == |snap.dorms|
  {
    if k == 0 then map[]
    else SellSheet(first, snap, qty, k - 1)[first + k - 1 := Leg(Dorm(k - 1), Sell, qty, snap.dorms[k - 1].bidPrice)]
  }

  // ---- what the sheets come to

  // one more order on a sheet

  lemma PutDue(sheet: Sheet, id: OrderId, leg: Leg, s: Symbol)
    requires id !in sheet
    ensures Total(Due(sheet[id := leg], s))
         == Total(Due(sheet, s)) + if leg.symbol == s then Signed(leg.side, leg.left) else 0
  {
    if leg.symbol == s {
      var due := Signed(leg.side, leg.left);
      assert Due(sheet[id := leg], s) == Due(sheet, s)[id := due] && Due(sheet, s) - {id} == Due(sheet, s);
      TotalPut(Due(sheet, s), id, due);
    } else {
      assert Due(sheet[id := leg], s) == Due(sheet, s);
    }
  }

  lemma PutGross(sheet: Sheet, id: OrderId, leg: Leg)
    requires id !in sheet
    ensures Total(Gross(sheet[id := leg])) == Total(Gross(sheet)) + leg.left
  {
    assert Gross(sheet[id := leg]) == Gross(sheet)[id := leg.left] && Gross(sheet) - {id} == Gross(sheet);
    TotalPut(Gross(sheet), id, leg.left);
  }

  lemma PutWorth(sheet: Sheet, id: OrderId, leg: Leg)
    requires id !in sheet
    ensures Total(Worth(sheet[id := leg])) == Total(Worth(sheet)) + Promise(leg)
  {
    assert Worth(sheet[id := leg]) == Worth(sheet)[id := Promise(leg)] && Worth(sheet) - {id} == Worth(sheet);
    TotalPut(Worth(sheet), id, Promise(leg));
  }

  lemma EmptySheet(s: Symbol)
    ensures Total(Due(map[], s)) == 0 && Total(Gross(map[])) == 0 && Total(Worth(map[])) == 0
  {
    assert Due(map[], s) == map[] && Gross(map[]) == map[] && Worth(map[]) == map[];
  }

  lemma BuySheetTotals(b: Book, snap: ArbSnapshot, s: Symbol)
    requires |snap.dorms| == DORM_COUNT
    ensures
      var sheet, qty := BuySheet(b, snap), RedemptionSize(snap);
      && Total(Due(sheet, s)) == (if s == UNDY then qty else 0) && Total(Gross(sheet)) == qty
  {
    EmptySheet(s);
    PutDue(map[], b.nextId, Leg(UNDY, Buy, RedemptionSize(snap), snap.undyAskPrice), s);
    PutGross(map[], b.nextId, Leg(UNDY, Buy, RedemptionSize(snap), snap.undyAskPrice));
  }

  lemma BuySheetWorth(b: Book, snap: ArbSnapshot)
    requires |snap.dorms| == DORM_COUNT
    ensures Total(Worth(BuySheet(b, snap))) == 0 - RedemptionSize(snap) * snap.undyAskPrice
  {
    EmptySheet(UNDY);
    PutWorth(map[], b.nextId, Leg(UNDY, Buy, RedemptionSize(snap), snap.undyAskPrice));
  }

  lemma {:induction false} SellSheetIds(first: nat, snap: ArbSnapshot, qty: int, k: nat)
    requires k <= DORM_COUNT == |snap.dorms|
    ensures forall id | id in SellSheet(first, snap, qty, k) :: first <= id < first + k
    ensures 0 <= qty ==> SheetOk(SellSheet(first, snap, qty, k))
  {
    if k > 0 {
      SellSheetIds(first, snap, qty, k - 1);
    }
  }

  lemma SellSheetStep(first: nat, snap: ArbSnapshot, qty: int, k: nat, s: Symbol)
    requires 0 < k <= DORM_COUNT == |snap.dorms| && first + k - 1 !in SellSheet(first, snap, qty, k - 1)
    ensures Total(Due(SellSheet(first, snap, qty, k), s))
         == Total(Due(SellSheet(first, snap, qty, k - 1), s)) + if s == 2 + k then 0 - qty else 0
  {
    PutDue(SellSheet(first, snap, qty, k - 1), first + k - 1,
           Leg(Dorm(k - 1), Sell, qty, snap.dorms[k - 1].bidPrice), s);
  }

  lemma {:induction false} SellSheetDue(first: nat, snap: ArbSnapshot, qty: int, k: nat, s: Symbol)
    requires k <= DORM_COUNT == |snap.dorms|
    ensures Total(Due(SellSheet(first, snap, qty, k), s)) == if 3 <= s < 3 + k then 0 - qty else 0
  {
    if k == 0 {
      EmptySheet(s);
    } else {
      SellSheetIds(first, snap, qty, k - 1);
      SellSheetDue(first, snap, qty, k - 1, s);
      SellSheetStep(first, snap, qty, k, s);
    }
  }

  lemma {:induction false} SellSheetGross(first: nat, snap: ArbSnapshot, qty: int, k: nat)
    requires k <= DORM_COUNT == |snap.dorms|
    ensures Total(Gross(SellSheet(first, snap, qty, k))) == qty * k
  {
    if k == 0 {
      EmptySheet(UNDY);
    } else {
      SellSheetIds(first, snap, qty, k - 1);
      SellSheetGross(first, snap, qty, k - 1);
      PutGross(SellSheet(first, snap, qty, k - 1), first + k - 1,
               Leg(Dorm(k - 1), Sell, qty, snap.dorms[k - 1].bidPrice));
      Distribute(qty, k - 1, 1);
    }
  }

  lemma SellSheetWorthStep(first: nat, snap: ArbSnapshot, qty: int, k: nat)
    requires 0 < k <= DORM_COUNT == |snap.dorms|
    ensures Total(Worth(SellSheet(first, snap, qty, k)))
         == Total(Worth(SellSheet(first, snap, qty, k - 1))) + qty * snap.dorms[k - 1].bidPrice
  {
    var leg := Leg(Dorm(k - 1), Sell, qty, snap.dorms[k - 1].bidPrice);
    SellSheetIds(first, snap, qty, k - 1);
    PutWorth(SellSheet(first, snap, qty, k - 1), first + k - 1, leg);
    Distribute(qty, 0, leg.limit);
  }

  lemma {:induction false} SellSheetWorth(first: nat, snap: ArbSnapshot, qty: int, k: nat)
    requires k <= DORM_COUNT == |snap.dorms|
    ensures Total(Worth(SellSheet(first, snap, qty, k))) == qty * SumBids(snap.dorms[..k])
  {
    if k == 0 {
      EmptySheet(UNDY);
      assert snap.dorms[..0] == [];
    } else {
      SellSheetWorth(first, snap, qty, k - 1);
      SellSheetWorthStep(first, snap, qty, k);
      assert snap.dorms[..k][..k - 1] == snap.dorms[..k - 1];
      Distribute(qty, SumBids(snap.dorms[..k - 1]), snap.dorms[k - 1].bidPrice);
    }
  }

  lemma Distribute(qty: int, a: int, b: int)
    ensures qty * (a + b) == qty * a + qty * b && 0 - (0 - qty) * b == qty * b
  {
  }

  lemma {:induction false} SellDormsRoutes(b: Book, snap: ArbSnapshot, qty: int, k: nat)
    requires k <= DORM_COUNT == |snap.dorms|
    ensures
      var b' := SellDorms(b, snap, qty, k);
      b'.nextId == b.nextId + k && Routes(b', SellSheet(b.nextId, snap, qty, k))
  {
    if k > 0 {
      SellDormsRoutes(b, snap, qty, k - 1);
      SellSheetIds(b.nextId, snap, qty, k - 1);
    }
  }

  lemma {:induction false} DeliverKeepsCounter(b: Book, evs: seq<FillEvent>)
    requires Shaped(b.account)
    ensures Deliver(b, evs).nextId == b.nextId
    decreases |evs|
  {
    if evs != [] {
      DeliverKeepsCounter(RouteFill(b, evs[0]), evs[1..]);
    }
  }

  lemma {:induction false} DeliverKeepsSent(b: Book, evs: seq<FillEvent>)
    requires Shaped(b.account)
    ensures Deliver(b, evs).sent == b.sent
    decreases |evs|
  {
    if evs != [] {
      DeliverKeepsSent(RouteFill(b, evs[0]), evs[1..]);
    }
  }

  // ---- the trade as a whole

  function BuyFills(r: Replies): seq<FillEvent> { r.whileSending + r.whileWaiting }

  /** The fund order fills completely, at its limit or better, while we wait for it. */
  predicate FilledUp(b: Book, snap: ArbSnapshot, r: Replies)
    requires |snap.dorms| == DORM_COUNT
  {
    WellFilled(BuySheet(b, snap), BuyFills(r)) && Rest(BuySheet(b, snap), BuyFills(r)) == map[]
  }

  /** It does, we see it, and the fund is redeemed. */
  predicate Bought(b: Book, snap: ArbSnapshot, r: Replies)
    requires |snap.dorms| == DORM_COUNT
  {
    r.bought && r.filled && r.redeemed && FilledUp(b, snap, r)
  }

  /** The orders for the dorms. */
  function SellOrders(b: Book, snap: ArbSnapshot): Sheet
    requires |snap.dorms| == DORM_COUNT
  {
    SellSheet(b.nextId + 1, snap, RedemptionSize(snap), DORM_COUNT)
  }

  /** They fill completely too, sooner or later. */
  predicate Sold(b: Book, snap: ArbSnapshot, r: Replies, later: seq<FillEvent>)
    requires |snap.dorms| == DORM_COUNT
  {
    var sheet, evs := SellOrders(b, snap), r.whileSelling + later;
    WellFilled(sheet, evs) && Rest(sheet, evs) == map[]
  }

  // the stages of an attempt that goes through

  function Buying(b: Book, snap: ArbSnapshot): Book
  {
    Send(b.(inProgress := true), UNDY, Buy, RedemptionSize(snap), snap.undyAskPrice)
  }

  function Settled(b: Book, snap: ArbSnapshot, r: Replies): (settled: Book)
    requires Shaped(b.account) && |snap.dorms| == DORM_COUNT == |r.marks| && Attempts(b, snap)
    ensures Shaped(settled.account)
  {
    var waited := Deliver(Buying(b, snap), BuyFills(r));
    waited.(account := SettleRedemption(waited.account, RedemptionSize(snap) as U32, r.marks, snap.undyAskPrice))
  }

  function Selling(b: Book, snap: ArbSnapshot, r: Replies): (selling: Book)
    requires Shaped(b.account) && |snap.dorms| == DORM_COUNT == |r.marks| && Attempts(b, snap)
    ensures Shaped(selling.account)
  {
    SellDorms(Settled(b, snap, r), snap, RedemptionSize(snap), DORM_COUNT)
  }

  lemma Stages(b: Book, snap: ArbSnapshot, r: Replies, later: seq<FillEvent>)
    requires Shaped(b.account) && |snap.dorms| == DORM_COUNT == |r.marks| && Attempts(b, snap)
    requires r.bought && r.filled && r.redeemed
    ensures Deliver(TryRedemption(b, snap, r).0, later) == Deliver(Selling(b, snap, r), r.whileSelling + later)
  {
    DeliverAppend(Buying(b, snap), r.whileSending, r.whileWaiting);
    DeliverAppend(Selling(b, snap, r), r.whileSelling, later);
  }

  /** What the fills of other orders come to during the trade: market-maker orders, and earlier ones of our own. */
  function Strangers(b: Book, snap: ArbSnapshot, r: Replies, later: seq<FillEvent>, s: Symbol): int
    requires Shaped(b.account) && |snap.dorms| == DORM_COUNT == |r.marks| && Attempts(b, snap)
  {
    Foreign(Buying(b, snap), BuySheet(b, snap), BuyFills(r), s)
      + Foreign(Selling(b, snap, r), SellOrders(b, snap), r.whileSelling + later, s)
  }

  function StrangersQty(b: Book, snap: ArbSnapshot, r: Replies, later: seq<FillEvent>): nat
    requires |snap.dorms| == DORM_COUNT
  {
    ForeignQty(BuySheet(b, snap), BuyFills(r)) + ForeignQty(SellOrders(b, snap), r.whileSelling + later)
  }

  /** What the completed fund order leaves. */
  lemma BuyPositions(b: Book, snap: ArbSnapshot, r: Replies, spare: nat)
    requires |snap.dorms| == DORM_COUNT && Attempts(b, snap) && FilledUp(b, snap, r)
    requires HasSlack(b.account, RedemptionSize(snap) + ForeignQty(BuySheet(b, snap), BuyFills(r)) + spare)
    ensures
      var waited := Deliver(Buying(b, snap), BuyFills(r));
      && waited.nextId == b.nextId + 1 && HasSlack(waited.account, spare)
      && forall s: Symbol ::
           waited.account.position[s]
             == b.account.position[s] + (if s == UNDY then RedemptionSize(snap) else 0)
                + Foreign(Buying(b, snap), BuySheet(b, snap), BuyFills(r), s)
  {
    var sheet, evs := BuySheet(b, snap), BuyFills(r);
    DeliverKeepsCounter(Buying(b, snap), evs);
    BuySheetTotals(b, snap, UNDY);
    DeliverConserves(Buying(b, snap), sheet, evs, spare);
    forall s: Symbol
      ensures Total(Due(sheet, s)) == (if s == UNDY then RedemptionSize(snap) else 0) && Total(Due(map[], s)) == 0
    {
      BuySheetTotals(b, snap, s);
      EmptySheet(s);
    }
    EmptySheet(UNDY);
  }

  /** After buying and redeeming, every dorm is held `qty` over and the fund is where it was, but for the fills of
      other orders. */
  lemma BuyAndRedeem(b: Book, snap: ArbSnapshot, r: Replies, spare: nat)
    requires |snap.dorms| == DORM_COUNT == |r.marks| && Attempts(b, snap) && Bought(b, snap, r)
    requires HasSlack(b.account, 2 * RedemptionSize(snap) + ForeignQty(BuySheet(b, snap), BuyFills(r)) + spare)
    ensures
      var settled := Settled(b, snap, r);
      && settled.nextId == b.nextId + 1 && HasSlack(settled.account, spare)
      && forall s: Symbol ::
           settled.account.position[s]
             == b.account.position[s] + (if IsDorm(s) then RedemptionSize(snap) else 0)
                + Foreign(Buying(b, snap), BuySheet(b, snap), BuyFills(r), s)
  {
    var qty := RedemptionSize(snap);
    BuyPositions(b, snap, r, qty + spare);
    SettlementPreserves(Deliver(Buying(b, snap), BuyFills(r)).account, qty as U32, r.marks, snap.undyAskPrice);
  }

  /** Selling `qty` of every dorm, completely. */
  lemma SellPositions(b: Book, snap: ArbSnapshot, qty: nat, evs: seq<FillEvent>)
    requires |snap.dorms| == DORM_COUNT
    requires
      var sheet := SellSheet(b.nextId, snap, qty, DORM_COUNT);
      && HasSlack(b.account, 10 * qty + ForeignQty(sheet, evs))
      && WellFilled(sheet, evs) && Rest(sheet, evs) == map[]
    ensures
      var sheet, sold := SellSheet(b.nextId, snap, qty, DORM_COUNT), SellDorms(b, snap, qty, DORM_COUNT);
      forall s: Symbol ::
        Deliver(sold, evs).account.position[s]
          == b.account.position[s] - (if IsDorm(s) then qty else 0) + Foreign(sold, sheet, evs, s)
  {
    var sheet, sold := SellSheet(b.nextId, snap, qty, DORM_COUNT), SellDorms(b, snap, qty, DORM_COUNT);
    SellDormsRoutes(b, snap, qty, DORM_COUNT);
    SellSheetIds(b.nextId, snap, qty, DORM_COUNT);
    SellSheetGross(b.nextId, snap, qty, DORM_COUNT);
    DeliverConserves(sold, sheet, evs, 0);
    forall s: Symbol
      ensures Total(Due(sheet, s)) == (if IsDorm(s) then 0 - qty else 0) && Total(Due(map[], s)) == 0
    {
      SellSheetDue(b.nextId, snap, qty, DORM_COUNT, s);
      EmptySheet(s);
    }
  }

  /** A redemption trade whose orders all fill completely, at their limits or better, in any order and with fills of
      other orders in between, moves each position by those other fills alone: a symbol that none of the other orders
      is for ends where it was. And it brings in at least quantity times edge, which is positive. */
  lemma RedemptionProfits(b: Book, snap: ArbSnapshot, r: Replies, later: seq<FillEvent>)
    requires |snap.dorms| == DORM_COUNT == |r.marks| && snap.navBid == SumBids(snap.dorms)
    requires Attempts(b, snap) && Bought(b, snap, r) && Sold(b, snap, r, later)
    requires HasSlack(b.account, 12 * RedemptionSize(snap) + StrangersQty(b, snap, r, later))
    ensures
      var qty := RedemptionSize(snap);
      var after := Deliver(TryRedemption(b, snap, r).0, later);
      var cash := CashFrom(BuySheet(b, snap), BuyFills(r)) + CashFrom(SellOrders(b, snap), r.whileSelling + later);
      && (forall s: Symbol ::
            after.account.position[s] == b.account.position[s] + Strangers(b, snap, r, later, s))
      && (forall s: Symbol | Apart(b, map[], s) :: after.account.position[s] == b.account.position[s])
      && cash >= qty * (snap.navBid - snap.undyAskPrice) > 0
  {
    RedemptionMoves(b, snap, r, later);
    RedemptionCash(b, snap, r, later);
    forall s: Symbol | Apart(b, map[], s)
      ensures Strangers(b, snap, r, later, s) == 0
    {
      StrangersApart(b, snap, r, later, s);
    }
  }

  lemma RedemptionMoves(b: Book, snap: ArbSnapshot, r: Replies, later: seq<FillEvent>)
    requires |snap.dorms| == DORM_COUNT == |r.marks|
    requires Attempts(b, snap) && Bought(b, snap, r) && Sold(b, snap, r, later)
    requires HasSlack(b.account, 12 * RedemptionSize(snap) + StrangersQty(b, snap, r, later))
    ensures
      var after := Deliver(TryRedemption(b, snap, r).0, later);
      forall s: Symbol :: after.account.position[s] == b.account.position[s] + Strangers(b, snap, r, later, s)
  {
    var qty := RedemptionSize(snap);
    var evs := r.whileSelling + later;
    Stages(b, snap, r, later);
    BuyAndRedeem(b, snap, r, 10 * qty + ForeignQty(SellOrders(b, snap), evs));
    SellPositions(Settled(b, snap, r), snap, qty, evs);
  }

  /** Other orders that are not for a symbol stay so all through the trade. */
  lemma StrangersApart(b: Book, snap: ArbSnapshot, r: Replies, later: seq<FillEvent>, s: Symbol)
    requires Shaped(b.account) && |snap.dorms| == DORM_COUNT == |r.marks|
    requires Attempts(b, snap) && Bought(b, snap, r) && Sold(b, snap, r, later) && Apart(b, map[], s)
    ensures Strangers(b, snap, r, later, s) == 0
  {
    var settled, qty := Settled(b, snap, r), RedemptionSize(snap);
    ForeignApart(Buying(b, snap), BuySheet(b, snap), BuyFills(r), s);
    DeliverKeepsCounter(Buying(b, snap), BuyFills(r));
    assert Apart(settled, map[], s);
    SellDormsRoutes(settled, snap, qty, DORM_COUNT);
    SellDormsApart(settled, snap, qty, DORM_COUNT, s);
    ForeignApart(Selling(b, snap, r), SellOrders(b, snap), r.whileSelling + later, s);
  }

  lemma {:induction false} SellDormsApart(b: Book, snap: ArbSnapshot, qty: int, k: nat, s: Symbol)
    requires k <= DORM_COUNT == |snap.dorms| && Apart(b, map[], s)
    ensures Apart(SellDorms(b, snap, qty, k), SellSheet(b.nextId, snap, qty, k), s)
  {
    if k > 0 {
      SellDormsApart(b, snap, qty, k - 1, s);
      SellDormsRoutes(b, snap, qty, k - 1);
    }
  }

  lemma RedemptionCash(b: Book, snap: ArbSnapshot, r: Replies, later: seq<FillEvent>)
    requires |snap.dorms| == DORM_COUNT && snap.navBid == SumBids(snap.dorms)
    requires Attempts(b, snap) && Bought(b, snap, r) && Sold(b, snap, r, later)
    ensures
      CashFrom(BuySheet(b, snap), BuyFills(r)) + CashFrom(SellOrders(b, snap), r.whileSelling + later)
      >= RedemptionSize(snap) * (snap.navBid - snap.undyAskPrice) > 0
  {
    var qty := RedemptionSize(snap);
    var buys, sells := BuySheet(b, snap), SellOrders(b, snap);
    SellSheetIds(b.nextId + 1, snap, qty, DORM_COUNT);
    EmptySheet(UNDY);
    CashAtLeast(buys, BuyFills(r));
    CashAtLeast(sells, r.whileSelling + later);
    assert Total(Worth(buys)) == 0 - qty * snap.undyAskPrice by {
      BuySheetWorth(b, snap);
    }
    assert Total(Worth(sells)) == qty * snap.navBid by {
      SellSheetWorth(b.nextId + 1, snap, qty, DORM_COUNT);
      assert snap.dorms[..DORM_COUNT] == snap.dorms;
    }
    Edge(qty, snap.navBid, snap.undyAskPrice, CashFrom(buys, BuyFills(r)), CashFrom(sells, r.whileSelling + later));
  }

  lemma Edge(qty: int, bid: int, ask: int, paid: int, received: int)
    requires qty > 0 && bid > ask && paid >= 0 - qty * ask && received >= qty * bid
    ensures paid + received >= qty * (bid - ask) > 0
  {
    assert qty * bid - qty * ask == qty * (bid - ask);
  }

  // ---- unwinding

  /** The order that closes a dorm: sell a long at the bid; cover a short only from -8 on, at the ask; nothing when
      there is no price. */
  datatype Closing = NoOrder | Order(side: Side, qty: int, price: int)

  function ClosingOrder(position: int, bid: int, ask: int): Closing
  {
    if position > 0 then (if bid <= 0 then NoOrder else Order(Sell, position, bid))
    else if position <= -8 then (if ask <= 0 then NoOrder else Order(Buy, 0 - position, ask))
    else NoOrder
  }

  /** There is something to close, and a price to close it at. */
  predicate Closable(position: int, bid: int, ask: int)
  {
    (0 < position && 0 < bid) || (position <= -8 && 0 < ask)
  }

  function DormOrder(b: Book, bids: seq<int>, asks: seq<int>, i: nat): Closing
    requires Shaped(b.account) && i < DORM_COUNT == |bids| == |asks|
  {
    ClosingOrder(b.account.position[Dorm(i)], bids[i], asks[i])
  }

  /** The first `k` dorms have their closing orders sent. */
  function SendClosing(b: Book, bids: seq<int>, asks: seq<int>, k: nat): (r: Book)
    requires Shaped(b.account) && k <= DORM_COUNT == |bids| == |asks|
    ensures r.account == b.account && b.nextId <= r.nextId
  {
    if k == 0 then b
    else
      var before := SendClosing(b, bids, asks, k - 1);
      match DormOrder(b, bids, asks, k - 1)
      case NoOrder => before
      case Order(side, qty, price) => Send(before, Dorm(k - 1), side, qty, price)
  }

  function ClosingSheet(b: Book, bids: seq<int>, asks: seq<int>, k: nat): Sheet
    requires Shaped(b.account) && k <= DORM_COUNT == |bids| == |asks|
  {
    if k == 0 then map[]
    else
      var before := ClosingSheet(b, bids, asks, k - 1);
      match DormOrder(b, bids, asks, k - 1)
      case NoOrder => before
      case Order(side, qty, price) =>
        before[SendClosing(b, bids, asks, k - 1).nextId := Leg(Dorm(k - 1), side, qty, price)]
  }

  lemma {:induction false} ClosingSheetIds(b: Book, bids: seq<int>, asks: seq<int>, k: nat)
    requires Shaped(b.account) && k <= DORM_COUNT == |bids| == |asks|
    ensures
      var sheet, sent := ClosingSheet(b, bids, asks, k), SendClosing(b, bids, asks, k);
      SheetOk(sheet) && Routes(sent, sheet) && forall id | id in sheet :: id < sent.nextId
  {
    if k > 0 {
      ClosingSheetIds(b, bids, asks, k - 1);
    }
  }

  /** The closing order of a dorm is for exactly what is held. */
  lemma {:induction false} ClosingSheetDue(b: Book, bids: seq<int>, asks: seq<int>, k: nat, s: Symbol)
    requires Shaped(b.account) && k <= DORM_COUNT == |bids| == |asks|
    ensures
      Total(Due(ClosingSheet(b, bids, asks, k), s))
        == if 3 <= s < 3 + k && Closable(b.account.position[s], bids[s - 3], asks[s - 3]) then 0 - b.account.position[s]
           else 0
  {
    if k == 0 {
      EmptySheet(s);
    } else {
      ClosingSheetDue(b, bids, asks, k - 1, s);
      ClosingSheetIds(b, bids, asks, k - 1);
      match DormOrder(b, bids, asks, k - 1) {
        case NoOrder =>
        case Order(side, qty, price) =>
          PutDue(ClosingSheet(b, bids, asks, k - 1), SendClosing(b, bids, asks, k - 1).nextId,
                 Leg(Dorm(k - 1), side, qty, price), s);
      }
    }
  }

  /** However far the closing orders have filled, what a dorm still holds is what is left to fill; once they have all
      filled, every dorm that had a closing order is flat and no other position has moved. All this but for the fills
      of other orders. */
  lemma UnwindFlattens(b: Book, bids: seq<int>, asks: seq<int>, evs: seq<FillEvent>)
    requires Shaped(b.account) && DORM_COUNT == |bids| == |asks|
    requires
      var sheet := ClosingSheet(b, bids, asks, DORM_COUNT);
      WellFilled(sheet, evs) && HasRoom(b, sheet, ForeignQty(sheet, evs))
    ensures
      var sent, sheet := SendClosing(b, bids, asks, DORM_COUNT), ClosingSheet(b, bids, asks, DORM_COUNT);
      var after, rest := Deliver(sent, evs), Rest(sheet, evs);
      && (forall s: Symbol ::
            var closes := IsDorm(s) && Closable(b.account.position[s], bids[s - 3], asks[s - 3]);
            after.account.position[s] == (if closes then 0 else b.account.position[s]) - Total(Due(rest, s))
                                         + Foreign(sent, sheet, evs, s))
      && (rest == map[] ==> forall s: Symbol :: Total(Due(rest, s)) == 0)
      && (forall s: Symbol | Apart(sent, sheet, s) :: Foreign(sent, sheet, evs, s) == 0)
  {
    var sent, sheet := SendClosing(b, bids, asks, DORM_COUNT), ClosingSheet(b, bids, asks, DORM_COUNT);
    ClosingSheetIds(b, bids, asks, DORM_COUNT);
    DeliverConserves(sent, sheet, evs, 0);
    forall s: Symbol
      ensures Total(Due(sheet, s))
           == if IsDorm(s) && Closable(b.account.position[s], bids[s - 3], asks[s - 3]) then 0 - b.account.position[s]
              else 0
    {
      ClosingSheetDue(b, bids, asks, DORM_COUNT, s);
    }
    forall s: Symbol
      ensures Total(Due(map[], s)) == 0
    {
      EmptySheet(s);
    }
    forall s: Symbol | Apart(sent, sheet, s)
      ensures Foreign(sent, sheet, evs, s) == 0
    {
      ForeignApart(sent, sheet, evs, s);
    }
  }
}
