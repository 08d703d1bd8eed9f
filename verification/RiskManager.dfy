/** The risk engine as the objects the callers hold: three trackers and the manager that wraps the order sender. */
module RiskManagers {
  import opened Market
  import opened Sums
  import opened Risk
  import RiskCaps
  import RiskShutdown

  /** What a call carries over: consistent tracking if the fill is honest, the caps if the modify is safe as well, and
      that a position past its limit means shutdown. */
  ghost predicate Inherits(l: Limits, s: State, e: Event, s': State)
  {
    && (RiskCaps.Consistent(l, s) && RiskCaps.FillHonest(s, e) ==>
          && RiskCaps.Consistent(l, s')
          && (RiskCaps.Capped(l, s) && RiskCaps.ModifySafe(s, e) ==> RiskCaps.Capped(l, s')))
    && (RiskShutdown.PositionGuarded(l, s) ==> RiskShutdown.PositionGuarded(l, s'))
  }

  lemma StepInherits(l: Limits, s: State, e: Event)
    ensures Inherits(l, s, e, Step(l, s, e))
  {
    if RiskCaps.Consistent(l, s) && RiskCaps.FillHonest(s, e) {
      RiskCaps.StepKeeps(l, s, e);
    }
    if RiskShutdown.PositionGuarded(l, s) {
      RiskShutdown.StepGuarded(l, s, e);
    }
  }

  /** The exchange side, remembering what it was asked. Its answers are arguments of the calls below. */
  class Sender {
    var requests: seq<OrderId>   // new and modify requests
    var deletes: seq<OrderId>

    constructor ()
      ensures requests == [] && deletes == []
    {
      requests, deletes := [], [];
    }

    method Request(id: OrderId, answer: bool) returns (ok: bool)
      modifies this`requests
      ensures requests == old(requests) + [id] && ok == answer
    {
      requests := requests + [id];
      ok := answer;
    }

    method Delete(id: OrderId, answer: bool) returns (ok: bool)
      modifies this`deletes
      ensures deletes == old(deletes) + [id] && ok == answer
    {
      deletes := deletes + [id];
      ok := answer;
    }
  }

  class PositionTracker {
    var position: int
    const maxPosition: I32

    constructor (maxPosition: I32)
      ensures position == 0 && this.maxPosition == maxPosition
    {
      position := 0;
      this.maxPosition := maxPosition;
    }

    method OnFill(side: Side, qty: U32)
      modifies this
      ensures position == old(position) + Signed(side, qty)
    {
      if side == Buy {
        position := position + qty;
      } else {
        position := position - qty;
      }
    }

    method WouldExceedLimit(side: Side, qty: int) returns (r: bool)
      ensures r <==> Abs(position + Signed(side, qty)) > maxPosition
    {
      var newPosition := position;
      if side == Buy {
        newPosition := newPosition + qty;
      } else {
        newPosition := newPosition - qty;
      }
      r := Abs(newPosition) > maxPosition;
    }
  }

  class ExposureTracker {
    const positions: PositionTracker
    const maxExposure: U32
    var outBuy: int
    var outSell: int
    var pending: map<OrderId, Pending>

    function View(): Exposure
      reads this
    {
      Exposure(outBuy, outSell, pending)
    }

    constructor (positions: PositionTracker, maxExposure: U32)
      ensures View() == Exposure(0, 0, map[]) && this.positions == positions && this.maxExposure == maxExposure
    {
      this.positions, this.maxExposure := positions, maxExposure;
      outBuy, outSell, pending := 0, 0, map[];
    }

    method OnOrderSent(id: OrderId, side: Side, qty: U32, price: I32)
      modifies this
      ensures View() == Risk.OnOrderSent(old(View()), id, side, qty, price)
    {
      pending := pending[id := Pending(side, qty, price)];
      if side == Buy {
        outBuy := outBuy + qty;
      } else {
        outSell := outSell + qty;
      }
    }

    method OnOrderRemoved(id: OrderId)
      modifies this
      ensures View() == Risk.OnOrderRemoved(old(View()), id)
    {
      if id in pending {
        if pending[id].side == Buy {
          outBuy := outBuy - pending[id].qty;
        } else {
          outSell := outSell - pending[id].qty;
        }
        pending := pending - {id};
      }
    }

    method OnFill(id: OrderId, qty: U32)
      modifies this
      ensures View() == Risk.OnOrderFilled(old(View()), id, qty)
    {
      if id in pending {
        if pending[id].side == Buy {
          outBuy := outBuy - qty;
        } else {
          outSell := outSell - qty;
        }
        pending := pending[id := pending[id].(qty := pending[id].qty - qty)];
        if pending[id].qty == 0 {
          pending := pending - {id};
        }
      }
    }

    method WouldExceedExposure(side: Side, qty: int) returns (r: bool)
      ensures r <==>
              (if side == Buy then PositivePart(positions.position) + outBuy
               else PositivePart(-positions.position) + outSell) + qty > maxExposure
    {
      if side == Buy {
        r := PositivePart(positions.position) + outBuy + qty > maxExposure;
      } else {
        r := PositivePart(-positions.position) + outSell + qty > maxExposure;
      }
    }
  }

  class PnlTracker {
    var position: int
    var buyCost: int
    var sellRevenue: int
    var mark: int

    function View(): Pnl
      reads this
    {
      Pnl(position, buyCost, sellRevenue, mark)
    }

    constructor ()
      ensures View() == Pnl(0, 0, 0, 0)
    {
      position, buyCost, sellRevenue, mark := 0, 0, 0, 0;
    }

    method OnFill(side: Side, qty: U32, price: I32)
      modifies this
      ensures View() == PnlFill(old(View()), side, qty, price)
    {
      if side == Buy {
        position := position + qty;
        buyCost := buyCost + qty * price;
      } else {
        position := position - qty;
        sellRevenue := sellRevenue + qty * price;
      }
    }

    method UpdateMarkPrice(markPrice: I32)
      modifies this`mark
      ensures View() == old(View()).(mark := markPrice)
    {
      mark := markPrice;
    }
  }

  class RiskManager {
    const limits: Limits
    const sender: Sender
    const positionTracker: PositionTracker
    const exposureTracker: ExposureTracker
    const pnlTracker: PnlTracker
    var openOrders: map<OrderId, OpenOrder>
    var ordersThisSecond: nat
    var secondWindowStart: int
    var ordersThisSeqNum: nat
    var lastSeqNum: U32
    var unackedOrders: nat
    var isShutdown: bool
    var inShutdown: bool

    ghost predicate Wired()
    {
      && positionTracker.maxPosition == limits.maxPosition
      && exposureTracker.maxExposure == limits.maxExposure
      && exposureTracker.positions == positionTracker
    }

    /** Between calls no cancellation of a shutdown is under way. */
    ghost predicate Valid()
      reads this
    {
      Wired() && !inShutdown
    }

    ghost function View(): State
      reads this, positionTracker, exposureTracker, pnlTracker
    {
      State(positionTracker.position, exposureTracker.View(), pnlTracker.View(), openOrders,
            Rates(ordersThisSecond, secondWindowStart, ordersThisSeqNum, lastSeqNum, unackedOrders), isShutdown)
    }

    constructor (sender: Sender, limits: Limits, now: int)
      ensures Valid() && View() == Initial(now) && this.limits == limits && this.sender == sender
      ensures fresh(positionTracker) && fresh(exposureTracker) && fresh(pnlTracker)
    {
      this.sender, this.limits := sender, limits;
      var positions := new PositionTracker(limits.maxPosition);
      positionTracker := positions;
      exposureTracker := new ExposureTracker(positions, limits.maxExposure);
      pnlTracker := new PnlTracker();
      openOrders := map[];
      ordersThisSecond, secondWindowStart, ordersThisSeqNum := 0, now, 0;
      lastSeqNum, unackedOrders, isShutdown, inShutdown := 0, 0, false, false;
    }

    method RefreshRateWindow(now: int)
      modifies this`ordersThisSecond, this`secondWindowStart
      ensures View() == Refreshed(old(View()), now)
    {
      var elapsed := (now - secondWindowStart) / MILLI;
      if elapsed >= 1000 {
        ordersThisSecond := 0;
        secondWindowStart := now;
      }
    }

    method CheckRateLimits() returns (v: Verdict)
      ensures v == CheckRates(limits, View().rates)
    {
      if ordersThisSecond >= limits.maxPerSecond { return RatePerSecond; }
      if ordersThisSeqNum >= limits.maxPerSeqNum { return RatePerSeqNum; }
      if unackedOrders >= limits.maxUnacked { return UnackedExceeded; }
      return Ok;
    }

    method CheckAddedQty(side: Side, qty: int) returns (v: Verdict)
      requires Valid()
      ensures v == CheckAdded(limits, View(), side, qty)
    {
      var outstanding := if side == Buy then exposureTracker.outBuy else exposureTracker.outSell;
      if outstanding + qty > limits.maxQtyPerSide { return QtyPerSideExceeded; }
      var over := exposureTracker.WouldExceedExposure(side, qty);
      if over { return ExposureExceeded; }
      var position := positionTracker.position;
      if Abs(position) >= limits.maxPosition && position != 0
         && ((side == Buy && position > 0) || (side == Sell && position < 0)) {
        return PositionLimitWouldIncrease;
      }
      over := positionTracker.WouldExceedLimit(side, qty);
      if over { return PositionLimitExceeded; }
      return Ok;
    }

    method CheckNewOrder(id: OrderId, side: Side, qty: U32, price: I32) returns (v: Verdict)
      requires Valid()
      ensures v == CheckNew(limits, View(), id, side, qty, price)
    {
      if isShutdown { return SystemShutdown; }
      if price < limits.minValidPrice { return InvalidPrice; }
      if qty > limits.maxQtyPerOrder { return QtyPerOrderExceeded; }
      v := CheckAddedQty(side, qty);
      if v != Ok { return; }
      if id in openOrders { return DuplicateOrderId; }
      return Ok;
    }

    method CheckModifyOrder(id: OrderId, side: Side, qty: U32, price: I32) returns (v: Verdict)
      requires Valid()
      ensures v == CheckModify(limits, View(), id, side, qty, price)
    {
      if isShutdown { return SystemShutdown; }
      if id !in openOrders { return UnknownOrderId; }
      var existing := openOrders[id];
      if price < limits.minValidPrice { return InvalidPrice; }
      if qty > limits.maxQtyPerOrder { return QtyPerOrderExceeded; }
      if side == existing.side {
        if qty > existing.qty {
          v := CheckAddedQty(side, qty - existing.qty);
          return;
        }
      } else {
        v := CheckAddedQty(side, qty);
        return;
      }
      return Ok;
    }

    /** All that is checked before a new order goes out, the rate window refreshed first. */
    method AdmitNew(now: int, id: OrderId, side: Side, qty: U32, price: I32) returns (v: Verdict)
      requires Valid()
      modifies this`ordersThisSecond, this`secondWindowStart
      ensures View() == Refreshed(old(View()), now)
      ensures
        var check := CheckNew(limits, old(View()), id, side, qty, price);
        v == if check != Ok then check else CheckRates(limits, Refresh(old(View()).rates, now))
    {
      RiskCaps.ChecksIgnoreRates(limits, View(), Refresh(View().rates, now), id, side, qty, price);
      RefreshRateWindow(now);
      v := CheckNewOrder(id, side, qty, price);
      if v != Ok { return; }
      v := CheckRateLimits();
    }

    /** The same before a modify. */
    method AdmitModify(now: int, id: OrderId, side: Side, qty: U32, price: I32) returns (v: Verdict)
      requires Valid()
      modifies this`ordersThisSecond, this`secondWindowStart
      ensures View() == Refreshed(old(View()), now)
      ensures
        var check := CheckModify(limits, old(View()), id, side, qty, price);
        v == if check != Ok then check else CheckRates(limits, Refresh(old(View()).rates, now))
    {
      RiskCaps.ChecksIgnoreRates(limits, View(), Refresh(View().rates, now), id, side, qty, price);
      RefreshRateWindow(now);
      v := CheckModifyOrder(id, side, qty, price);
      if v != Ok { return; }
      v := CheckRateLimits();
    }

    /** Count the request, send it, and wait for the answer. */
    method Forward(id: OrderId, answer: bool) returns (ok: bool)
      modifies this`ordersThisSecond, this`ordersThisSeqNum, this`unackedOrders, sender`requests
      ensures ok == answer && View() == old(View()).(rates := Counted(old(View()).rates))
      ensures sender.requests == old(sender.requests) + [id]
    {
      unackedOrders := unackedOrders + 1;
      ordersThisSecond := ordersThisSecond + 1;
      ordersThisSeqNum := ordersThisSeqNum + 1;
      ok := sender.Request(id, answer);
      unackedOrders := unackedOrders - 1;
    }

    method SendNewOrder(now: int, id: OrderId, symbol: U32, side: Side, qty: U32, price: I32, answer: bool,
                        refused: set<OrderId>) returns (ok: bool)
      requires Valid()
      modifies this, sender, positionTracker, exposureTracker, pnlTracker
      ensures Valid()
      ensures
        var e := SendNew(now, id, symbol, side, qty, price, answer, refused);
        && View() == Step(limits, old(View()), e) && Inherits(limits, old(View()), e, View())
        && ok == (old(Forwards(limits, View(), e)) && answer)
        && sender.requests == old(sender.requests) + if old(Forwards(limits, View(), e)) then [id] else []
    {
      ghost var before := View();
      StepInherits(limits, before, SendNew(now, id, symbol, side, qty, price, answer, refused));
      var v := AdmitNew(now, id, side, qty, price);
      if v != Ok { return false; }
      ok := Forward(id, answer);
      if ok {
        openOrders := openOrders[id := OpenOrder(symbol, side, qty, price)];
        exposureTracker.OnOrderSent(id, side, qty, price);
        assert View() == Add(Sent(before, now), id, symbol, side, qty, price);
      }
      CheckAndShutdownIfNeeded(refused);
    }

    method ModifyOrder(now: int, id: OrderId, side: Side, qty: U32, price: I32, answer: bool, refused: set<OrderId>)
      returns (ok: bool)
      requires Valid()
      modifies this, sender, positionTracker, exposureTracker, pnlTracker
      ensures Valid()
      ensures
        var e := SendModify(now, id, side, qty, price, answer, refused);
        && View() == Step(limits, old(View()), e) && Inherits(limits, old(View()), e, View())
        && ok == (old(Forwards(limits, View(), e)) && answer)
        && sender.requests == old(sender.requests) + if old(Forwards(limits, View(), e)) then [id] else []
    {
      ghost var before := View();
      StepInherits(limits, before, SendModify(now, id, side, qty, price, answer, refused));
      var v := AdmitModify(now, id, side, qty, price);
      if v != Ok { return false; }
      var oldInfo := openOrders[id];
      ok := Forward(id, answer);
      if ok {
        exposureTracker.OnOrderRemoved(id);
        exposureTracker.OnOrderSent(id, side, qty, price);
        openOrders := openOrders[id := OpenOrder(oldInfo.symbol, side, qty, price)];
        assert View() == Change(Sent(before, now), id, side, qty, price);
      }
      CheckAndShutdownIfNeeded(refused);
    }

    method DeleteOrder(id: OrderId, answer: bool) returns (ok: bool)
      modifies this`openOrders, sender`deletes, exposureTracker
      ensures ok == answer && View() == Step(limits, old(View()), SendDelete(id, answer))
      ensures Inherits(limits, old(View()), SendDelete(id, answer), View())
      ensures sender.deletes == old(sender.deletes) + [id]
    {
      StepInherits(limits, View(), SendDelete(id, answer));
      ok := sender.Delete(id, answer);
      if ok {
        exposureTracker.OnOrderRemoved(id);
        openOrders := openOrders - {id};
      }
    }

    /** One more of the orders of `before`, of which `asked` have been dealt with. */
    method CancelOne(id: OrderId, refused: set<OrderId>, ghost before: State, ghost asked: set<OrderId>)
      requires id !in asked && View() == Without(before, asked - refused)
      modifies this`openOrders, sender`deletes, exposureTracker
      ensures View() == Without(before, asked + {id} - refused)
      ensures sender.deletes == old(sender.deletes) + [id]
    {
      WithoutStep(before, asked, refused, id);
      var ok := DeleteOrder(id, id !in refused);
    }

    /** Ask for every open order to be deleted, once each, in any order; keep the ones the exchange refuses. */
    method CancelAllOpenOrders(refused: set<OrderId>)
      requires Wired()
      modifies this`openOrders, sender`deletes, exposureTracker
      ensures View() == CancelAll(old(View()), refused)
      ensures multiset(sender.deletes) == old(multiset(sender.deletes)) + multiset(old(openOrders.Keys))
    {
      var ids := openOrders.Keys;
      ghost var before, keys, start := View(), openOrders.Keys, sender.deletes;
      ghost var asked: set<OrderId> := {};
      RemoveNone(before, refused);
      while ids != {}
        invariant Split(keys, ids, asked) && AskedOnce(start, sender.deletes, asked)
        invariant View() == Without(before, asked - refused)
        decreases ids
      {
        var id :| id in ids;
        SplitStep(keys, ids, asked, id);
        AskedStep(start, sender.deletes, asked, id);
        ids := ids - {id};
        CancelOne(id, refused, before, asked);
        asked := asked + {id};
      }
      assert asked == keys;
    }

    method CheckAndShutdownIfNeeded(refused: set<OrderId>)
      requires Valid()
      modifies this`openOrders, this`isShutdown, this`inShutdown, sender`deletes, exposureTracker
      ensures Valid() && View() == CheckShutdown(limits, old(View()), refused)
    {
      if isShutdown || inShutdown { return; }
      var totalPnl :=
        pnlTracker.sellRevenue - pnlTracker.buyCost + pnlTracker.position * pnlTracker.mark;
      var pnlBreach := (totalPnl as real) < limits.minPnl;
      var posBreach := Abs(positionTracker.position) > limits.maxPosition;
      if !pnlBreach && !posBreach { return; }
      isShutdown := true;
      inShutdown := true;
      CancelAllOpenOrders(refused);
      inShutdown := false;
    }

    method OnFill(id: OrderId, qty: U32, price: I32, closed: bool, refused: set<OrderId>)
      requires Valid()
      modifies this, sender`deletes, positionTracker, exposureTracker, pnlTracker
      ensures Valid()
      ensures
        var e := Filled(id, qty, price, closed, refused);
        View() == Step(limits, old(View()), e) && Inherits(limits, old(View()), e, View())
    {
      ghost var before := View();
      StepInherits(limits, before, Filled(id, qty, price, closed, refused));
      if id !in openOrders { return; }
      var side := openOrders[id].side;
      positionTracker.OnFill(side, qty);
      pnlTracker.OnFill(side, qty, price);
      exposureTracker.OnFill(id, qty);
      if closed {
        openOrders := openOrders - {id};
      }
      assert View() == Risk.Book(before, id, qty, price, closed);
      CheckAndShutdownIfNeeded(refused);
    }

    /** The exchange rejected or closed the order. */
    method OnGone(id: OrderId)
      requires Valid()
      modifies this`openOrders, exposureTracker
      ensures Valid() && View() == Step(limits, old(View()), Gone(id))
      ensures Inherits(limits, old(View()), Gone(id), View())
    {
      StepInherits(limits, View(), Gone(id));
      exposureTracker.OnOrderRemoved(id);
      openOrders := openOrders - {id};
    }

    method UpdateMarkPrice(mark: I32)
      requires Valid()
      modifies pnlTracker`mark
      ensures Valid() && View() == Step(limits, old(View()), MarkPrice(mark))
    {
      pnlTracker.UpdateMarkPrice(mark);
    }

    method OnSeqNumUpdate(seqNum: U32)
      requires Valid()
      modifies this`ordersThisSeqNum, this`lastSeqNum
      ensures Valid() && View() == Step(limits, old(View()), SeqNum(seqNum))
    {
      if seqNum != lastSeqNum {
        ordersThisSeqNum := 0;
        lastSeqNum := seqNum;
      }
    }
  }

  /** The deletions since `start` name each of `asked` once. */
  predicate AskedOnce(start: seq<OrderId>, deletes: seq<OrderId>, asked: set<OrderId>)
  {
    multiset(deletes) == multiset(start) + multiset(asked)
  }

  predicate Split(keys: set<OrderId>, left: set<OrderId>, asked: set<OrderId>)
  {
    left !! asked && left + asked == keys
  }

  lemma SplitStep(keys: set<OrderId>, left: set<OrderId>, asked: set<OrderId>, id: OrderId)
    requires Split(keys, left, asked) && id in left
    ensures Split(keys, left - {id}, asked + {id}) && id !in asked
  {
  }

  lemma AskedStep(start: seq<OrderId>, deletes: seq<OrderId>, asked: set<OrderId>, id: OrderId)
    requires AskedOnce(start, deletes, asked) && id !in asked
    ensures AskedOnce(start, deletes + [id], asked + {id})
  {
    assert multiset(deletes + [id]) == multiset(deletes) + multiset{id};
    assert multiset(asked + {id}) == multiset(asked) + multiset{id};
  }

  lemma RemoveNone(s: State, refused: set<OrderId>)
    ensures Without(s, {} - refused) == s
  {
    assert {} - refused == {};
    assert PendingQty(s.exposure.pending, {}, true) == map[] && PendingQty(s.exposure.pending, {}, false) == map[];
    assert s.exposure.pending - {} == s.exposure.pending && s.open - {} == s.open;
  }

  lemma WithoutStep(s: State, asked: set<OrderId>, refused: set<OrderId>, id: OrderId)
    requires id !in asked
    ensures
      Without(s, asked + {id} - refused)
        == if id in refused then Without(s, asked - refused) else Forget(Without(s, asked - refused), id)
  {
    if id in refused {
      assert asked + {id} - refused == asked - refused;
    } else {
      assert asked + {id} - refused == asked - refused + {id};
      RiskCaps.RemoveAllStep(s.exposure, asked - refused, id);
      assert s.open - (asked - refused) - {id} == s.open - (asked - refused + {id});
    }
  }
}
