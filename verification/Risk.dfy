/** The pre-trade risk engine as a value: limits, positions, outstanding orders, profit, rate counters, and every
    call. */
module Risk {
  import opened Market
  import opened Sums

  datatype Limits = Limits(
    maxQtyPerOrder: U32, maxQtyPerSide: U32, maxExposure: U32, maxPosition: I32,
    maxPerSecond: U32, maxPerSeqNum: U32, maxUnacked: U32, minPnl: real, minValidPrice: I32)

  datatype Verdict =
    | Ok | SystemShutdown | InvalidPrice | QtyPerOrderExceeded | QtyPerSideExceeded | ExposureExceeded
    | PositionLimitWouldIncrease | PositionLimitExceeded | RatePerSecond | RatePerSeqNum | UnackedExceeded
    | DuplicateOrderId | UnknownOrderId

  datatype OpenOrder = OpenOrder(symbol: U32, side: Side, qty: U32, price: I32)
  datatype Pending = Pending(side: Side, qty: int, price: I32)

  datatype Exposure = Exposure(outBuy: int, outSell: int, pending: map<OrderId, Pending>)
  datatype Pnl = Pnl(position: int, buyCost: int, sellRevenue: int, mark: int)
  datatype Rates = Rates(thisSecond: nat, windowStart: int, thisSeqNum: nat, lastSeqNum: U32, unacked: nat)

  datatype State = State(
    position: int, exposure: Exposure, pnl: Pnl, open: map<OrderId, OpenOrder>, rates: Rates, shutdown: bool)

  function Initial(start: int): State
  {
    State(0, Exposure(0, 0, map[]), Pnl(0, 0, 0, 0), map[], Rates(0, start, 0, 0, 0), false)
  }

  function PositivePart(x: int): nat { if x < 0 then 0 else x }

  // ---- exposure

  function BuyExposure(s: State): int { PositivePart(s.position) + s.exposure.outBuy }
  function SellExposure(s: State): int { PositivePart(-s.position) + s.exposure.outSell }

  function Outstanding(e: Exposure, side: Side): int
  {
    if side == Buy then e.outBuy else e.outSell
  }

  predicate WouldExceedExposure(l: Limits, s: State, side: Side, qty: int)
  {
    (if side == Buy then BuyExposure(s) else SellExposure(s)) + qty > l.maxExposure
  }

  function AddOutstanding(e: Exposure, side: Side, qty: int): Exposure
  {
    if side == Buy then e.(outBuy := e.outBuy + qty) else e.(outSell := e.outSell + qty)
  }

  function OnOrderSent(e: Exposure, id: OrderId, side: Side, qty: U32, price: I32): Exposure
  {
    AddOutstanding(e.(pending := e.pending[id := Pending(side, qty, price)]), side, qty)
  }

  function OnOrderRemoved(e: Exposure, id: OrderId): Exposure
  {
    if id !in e.pending then e
    else AddOutstanding(e.(pending := e.pending - {id}), e.pending[id].side, 0 - e.pending[id].qty)
  }

  function OnOrderFilled(e: Exposure, id: OrderId, qty: U32): Exposure
  {
    if id !in e.pending then e
    else
      var p := e.pending[id];
      AddOutstanding(
        e.(pending := if p.qty == qty then e.pending - {id} else e.pending[id := p.(qty := p.qty - qty)]),
        p.side, 0 - qty)
  }

  // ---- position and profit

  predicate AtLimit(l: Limits, s: State) { Abs(s.position) >= l.maxPosition }

  predicate WouldExceedLimit(l: Limits, s: State, side: Side, qty: int)
  {
    Abs(s.position + Signed(side, qty)) > l.maxPosition
  }

  predicate WouldIncreaseAbsPosition(s: State, side: Side)
  {
    s.position != 0 && ((side == Buy && s.position > 0) || (side == Sell && s.position < 0))
  }

  function PnlFill(p: Pnl, side: Side, qty: U32, price: I32): Pnl
  {
    if side == Buy then p.(position := p.position + qty, buyCost := p.buyCost + qty * price)
    else p.(position := p.position - qty, sellRevenue := p.sellRevenue + qty * price)
  }

  function TotalPnl(p: Pnl): int
  {
    p.sellRevenue - p.buyCost + p.position * p.mark
  }

  // ---- checks

  function CheckAdded(l: Limits, s: State, side: Side, qty: int): Verdict
  {
    if Outstanding(s.exposure, side) + qty > l.maxQtyPerSide then QtyPerSideExceeded
    else if WouldExceedExposure(l, s, side, qty) then ExposureExceeded
    else if AtLimit(l, s) && WouldIncreaseAbsPosition(s, side) then PositionLimitWouldIncrease
    else if WouldExceedLimit(l, s, side, qty) then PositionLimitExceeded
    else Ok
  }

  function CheckNew(l: Limits, s: State, id: OrderId, side: Side, qty: U32, price: I32): Verdict
  {
    if s.shutdown then SystemShutdown
    else if price < l.minValidPrice then InvalidPrice
    else if qty > l.maxQtyPerOrder then QtyPerOrderExceeded
    else if CheckAdded(l, s, side, qty) != Ok then CheckAdded(l, s, side, qty)
    else if id in s.open then DuplicateOrderId
    else Ok
  }

  /** On the same side only the increase over the registered quantity is checked; a change of side counts in full. */
  function CheckModify(l: Limits, s: State, id: OrderId, side: Side, qty: U32, price: I32): Verdict
  {
    if s.shutdown then SystemShutdown
    else if id !in s.open then UnknownOrderId
    else if price < l.minValidPrice then InvalidPrice
    else if qty > l.maxQtyPerOrder then QtyPerOrderExceeded
    else if side != s.open[id].side then CheckAdded(l, s, side, qty)
    else if qty > s.open[id].qty then CheckAdded(l, s, side, qty - s.open[id].qty)
    else Ok
  }

  // ---- rates; times in nanoseconds

  const MILLI: int := 1_000_000
  const WINDOW: int := 1000 * MILLI

  function Refresh(r: Rates, now: int): Rates
  {
    if (now - r.windowStart) / MILLI >= 1000 then r.(thisSecond := 0, windowStart := now) else r
  }

  function CheckRates(l: Limits, r: Rates): Verdict
  {
    if r.thisSecond >= l.maxPerSecond then RatePerSecond
    else if r.thisSeqNum >= l.maxPerSeqNum then RatePerSeqNum
    else if r.unacked >= l.maxUnacked then UnackedExceeded
    else Ok
  }

  function Counted(r: Rates): Rates
  {
    r.(thisSecond := r.thisSecond + 1, thisSeqNum := r.thisSeqNum + 1)
  }

  // ---- shutdown

  function PendingQty(pending: map<OrderId, Pending>, ids: set<OrderId>, buy: bool): map<OrderId, int>
  {
    map id | id in pending && id in ids && (pending[id].side == Buy) == buy :: pending[id].qty
  }

  /** All of `ids` are no longer outstanding. */
  ghost function RemoveAll(e: Exposure, ids: set<OrderId>): Exposure
  {
    Exposure(e.outBuy - Total(PendingQty(e.pending, ids, true)),
             e.outSell - Total(PendingQty(e.pending, ids, false)),
             e.pending - ids)
  }

  /** Ask for every open order to be deleted; the exchange refuses for the ids in `refused`. */
  ghost function CancelAll(s: State, refused: set<OrderId>): State
  {
    Without(s, s.open.Keys - refused)
  }

  /** The same with the orders under `ids` gone. */
  ghost function Without(s: State, ids: set<OrderId>): State
  {
    s.(exposure := RemoveAll(s.exposure, ids), open := s.open - ids)
  }

  predicate Breached(l: Limits, s: State)
  {
    (TotalPnl(s.pnl) as real) < l.minPnl || Abs(s.position) > l.maxPosition
  }

  ghost function CheckShutdown(l: Limits, s: State, refused: set<OrderId>): State
  {
    if s.shutdown || !Breached(l, s) then s
    else CancelAll(s.(shutdown := true), refused)
  }

  // ---- calls

  /** Each call with what the exchange answers: whether it accepts the request, and which deletions it refuses should
      the call end in a shutdown. */
  datatype Event =
    | SendNew(now: int, id: OrderId, symbol: U32, side: Side, qty: U32, price: I32, accepted: bool,
              refused: set<OrderId>)
    | SendModify(now: int, id: OrderId, side: Side, qty: U32, price: I32, accepted: bool, refused: set<OrderId>)
    | SendDelete(id: OrderId, accepted: bool)
    | SendCancelAll(refused: set<OrderId>)
    | Filled(id: OrderId, qty: U32, price: I32, closed: bool, refused: set<OrderId>)
    | Gone(id: OrderId)                 // rejected or closed by the exchange
    | MarkPrice(mark: I32)
    | SeqNum(seqNum: U32)
    | CheckNow(refused: set<OrderId>)

  function Refreshed(s: State, now: int): State { s.(rates := Refresh(s.rates, now)) }

  /** The counters once a request has gone out and been answered. */
  function Sent(s: State, now: int): State { s.(rates := Counted(Refresh(s.rates, now))) }

  /** The request passes every check and goes out. */
  predicate Forwards(l: Limits, s: State, e: Event)
  {
    match e
    case SendNew(now, id, _, side, qty, price, _, _) =>
      CheckNew(l, s, id, side, qty, price) == Ok && CheckRates(l, Refresh(s.rates, now)) == Ok
    case SendModify(now, id, side, qty, price, _, _) =>
      CheckModify(l, s, id, side, qty, price) == Ok && CheckRates(l, Refresh(s.rates, now)) == Ok
    case _ => false
  }

  function Add(s: State, id: OrderId, symbol: U32, side: Side, qty: U32, price: I32): State
  {
    s.(open := s.open[id := OpenOrder(symbol, side, qty, price)],
       exposure := OnOrderSent(s.exposure, id, side, qty, price))
  }

  /** The old registration is taken out and the new one put in. */
  function Change(s: State, id: OrderId, side: Side, qty: U32, price: I32): State
    requires id in s.open
  {
    s.(open := s.open[id := OpenOrder(s.open[id].symbol, side, qty, price)],
       exposure := OnOrderSent(OnOrderRemoved(s.exposure, id), id, side, qty, price))
  }

  function Forget(s: State, id: OrderId): State
  {
    s.(exposure := OnOrderRemoved(s.exposure, id), open := s.open - {id})
  }

  function Book(s: State, id: OrderId, qty: U32, price: I32, closed: bool): State
    requires id in s.open
  {
    var side := s.open[id].side;
    s.(position := s.position + Signed(side, qty),
       pnl := PnlFill(s.pnl, side, qty, price),
       exposure := OnOrderFilled(s.exposure, id, qty),
       open := if closed then s.open - {id} else s.open)
  }

  ghost function Step(l: Limits, s: State, e: Event): State
  {
    match e
    case SendNew(now, id, symbol, side, qty, price, accepted, refused) =>
      if !Forwards(l, s, e) then Refreshed(s, now)
      else
        CheckShutdown(l, if accepted then Add(Sent(s, now), id, symbol, side, qty, price) else Sent(s, now), refused)
    case SendModify(now, id, side, qty, price, accepted, refused) =>
      if !Forwards(l, s, e) then Refreshed(s, now)
      else
        CheckShutdown(l, if accepted then Change(Sent(s, now), id, side, qty, price) else Sent(s, now), refused)
    case SendDelete(id, accepted) => if accepted then Forget(s, id) else s
    case SendCancelAll(refused) => CancelAll(s, refused)
    case Filled(id, qty, price, closed, refused) =>
      if id !in s.open then s else CheckShutdown(l, Book(s, id, qty, price, closed), refused)
    case Gone(id) => Forget(s, id)
    case MarkPrice(mark) => s.(pnl := s.pnl.(mark := mark))
    case SeqNum(n) => if n == s.rates.lastSeqNum then s else s.(rates := s.rates.(thisSeqNum := 0, lastSeqNum := n))
    case CheckNow(refused) => CheckShutdown(l, s, refused)
  }

  ghost function Run(l: Limits, s: State, es: seq<Event>): State
    decreases |es|
  {
    if es == [] then s else Run(l, Step(l, s, es[0]), es[1..])
  }
}
