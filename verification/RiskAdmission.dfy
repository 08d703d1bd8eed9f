/** Which requests pass, in terms of states and limits alone; what a passed request leaves; and when the engine
    stops. */
module RiskAdmission {
  import opened Market
  import opened Risk

  // ---- what passes

  /** `added` more on a side stays inside the limits on the side's total, its exposure, and the position after a full
      fill. Nothing at all passes, not even nothing, on the side of a position that stands at its limit. */
  predicate RoomFor(l: Limits, s: State, side: Side, added: int)
  {
    if side == Buy then
      && s.exposure.outBuy + added <= l.maxQtyPerSide
      && s.exposure.outBuy + added <= l.maxExposure
      && s.position + s.exposure.outBuy + added <= l.maxExposure
      && 0 - l.maxPosition <= s.position + added <= l.maxPosition
      && (added > 0 || s.position != l.maxPosition || s.position <= 0)
    else
      && s.exposure.outSell + added <= l.maxQtyPerSide
      && s.exposure.outSell + added <= l.maxExposure
      && s.exposure.outSell - s.position + added <= l.maxExposure
      && 0 - l.maxPosition <= s.position - added <= l.maxPosition
      && (added > 0 || side != Sell || s.position != 0 - l.maxPosition || s.position >= 0)
  }

  lemma AddedIff(l: Limits, s: State, side: Side, added: nat)
    ensures CheckAdded(l, s, side, added) == Ok <==> RoomFor(l, s, side, added)
  {
  }

  /** A new order passes exactly while the engine runs, at a valid price, within the order limit, under a fresh id, and
      with room for it. */
  lemma NewAdmittedIff(l: Limits, s: State, id: OrderId, side: Side, qty: U32, price: I32)
    ensures
      CheckNew(l, s, id, side, qty, price) == Ok
      <==> !s.shutdown && l.minValidPrice <= price && qty <= l.maxQtyPerOrder && id !in s.open
           && RoomFor(l, s, side, qty)
  {
    AddedIff(l, s, side, qty);
  }

  /** A modify passes exactly while the engine runs, at a valid price, within the order limit, for a known order, and
      with room for what it adds: on the order's own side the increase, if any; on the other side all of it. */
  lemma ModifyAdmittedIff(l: Limits, s: State, id: OrderId, side: Side, qty: U32, price: I32)
    ensures
      CheckModify(l, s, id, side, qty, price) == Ok
      <==> && !s.shutdown && id in s.open && l.minValidPrice <= price && qty <= l.maxQtyPerOrder
           && (if side == s.open[id].side then
                 qty <= s.open[id].qty || RoomFor(l, s, side, qty - s.open[id].qty)
               else RoomFor(l, s, side, qty))
  {
    AddedIff(l, s, side, qty);
    if id in s.open && qty > s.open[id].qty {
      AddedIff(l, s, side, qty - s.open[id].qty);
    }
  }

  // the verdicts

  datatype Rule = Rule(broken: bool, verdict: Verdict)

  /** The verdict is that of the first broken rule, Ok if there is none. */
  ghost predicate IsFirstBroken(rules: seq<Rule>, v: Verdict)
  {
    && (forall i | 0 <= i < |rules| && rules[i].broken && forall j | 0 <= j < i :: !rules[j].broken ::
          v == rules[i].verdict)
    && ((forall i | 0 <= i < |rules| :: !rules[i].broken) ==> v == Ok)
  }

  lemma FirstBrokenCons(rule: Rule, rest: seq<Rule>, v: Verdict)
    requires if rule.broken then v == rule.verdict else IsFirstBroken(rest, v)
    ensures IsFirstBroken([rule] + rest, v)
  {
    var rules := [rule] + rest;
    assert rules[0] == rule;
    if !rule.broken {
      forall i | 0 <= i < |rules| && rules[i].broken && forall j | 0 <= j < i :: !rules[j].broken
        ensures v == rules[i].verdict
      {
        assert rules[i] == rest[i - 1];
        forall j | 0 <= j < i - 1
          ensures !rest[j].broken
        {
          assert rest[j] == rules[j + 1];
        }
      }
      if forall i | 0 <= i < |rules| :: !rules[i].broken {
        forall i | 0 <= i < |rest|
          ensures !rest[i].broken
        {
          assert rest[i] == rules[i + 1];
        }
      }
    }
  }

  lemma OneRule(rule: Rule)
    ensures IsFirstBroken([], Ok)
    ensures IsFirstBroken([rule] + [], if rule.broken then rule.verdict else Ok)
  {
    assert IsFirstBroken([], Ok);
    FirstBrokenCons(rule, [], if rule.broken then rule.verdict else Ok);
  }

  /** The rules on what an order adds to its side, and then the rest. */
  function AddedRules(l: Limits, s: State, side: Side, added: int, rest: seq<Rule>): seq<Rule>
  {
    var total := (if side == Buy then s.exposure.outBuy else s.exposure.outSell) + added;
    var held := if side == Buy then s.position else 0 - s.position;
    [Rule(total > l.maxQtyPerSide, QtyPerSideExceeded)]
    + ([Rule(total > l.maxExposure || held + total > l.maxExposure, ExposureExceeded)]
       + ([Rule(held > 0 && held >= l.maxPosition && !side.Unknown?, PositionLimitWouldIncrease)]
          + ([Rule(held + added > l.maxPosition || held + added < 0 - l.maxPosition, PositionLimitExceeded)] + rest)))
  }

  lemma AddedVerdict(l: Limits, s: State, side: Side, added: int, rest: seq<Rule>, v: Verdict)
    requires if CheckAdded(l, s, side, added) == Ok then IsFirstBroken(rest, v) else v == CheckAdded(l, s, side, added)
    ensures IsFirstBroken(AddedRules(l, s, side, added, rest), v)
  {
    var total := (if side == Buy then s.exposure.outBuy else s.exposure.outSell) + added;
    var held := if side == Buy then s.position else 0 - s.position;
    var r1 := Rule(total > l.maxQtyPerSide, QtyPerSideExceeded);
    var r2 := Rule(total > l.maxExposure || held + total > l.maxExposure, ExposureExceeded);
    var r3 := Rule(held > 0 && held >= l.maxPosition && !side.Unknown?, PositionLimitWouldIncrease);
    var r4 := Rule(held + added > l.maxPosition || held + added < 0 - l.maxPosition, PositionLimitExceeded);
    if !r1.broken && !r2.broken && !r3.broken {
      FirstBrokenCons(r4, rest, v);
    }
    if !r1.broken && !r2.broken {
      FirstBrokenCons(r3, [r4] + rest, v);
    }
    if !r1.broken {
      FirstBrokenCons(r2, [r3] + ([r4] + rest), v);
    }
    FirstBrokenCons(r1, [r2] + ([r3] + ([r4] + rest)), v);
  }

  /** The verdict on a new order is that of the first rule it breaks, in this order. */
  lemma NewVerdict(l: Limits, s: State, id: OrderId, side: Side, qty: U32, price: I32)
    ensures
      IsFirstBroken(
        [Rule(s.shutdown, SystemShutdown)] + ([Rule(price < l.minValidPrice, InvalidPrice)]
        + ([Rule(qty > l.maxQtyPerOrder, QtyPerOrderExceeded)]
           + AddedRules(l, s, side, qty, [Rule(id in s.open, DuplicateOrderId)] + []))),
        CheckNew(l, s, id, side, qty, price))
  {
    var v, last := CheckNew(l, s, id, side, qty, price), Rule(id in s.open, DuplicateOrderId);
    var r1, r2 := Rule(s.shutdown, SystemShutdown), Rule(price < l.minValidPrice, InvalidPrice);
    var r3, added := Rule(qty > l.maxQtyPerOrder, QtyPerOrderExceeded), AddedRules(l, s, side, qty, [last] + []);
    if !r1.broken && !r2.broken && !r3.broken {
      OneRule(last);
      AddedVerdict(l, s, side, qty, [last] + [], v);
    }
    if !r1.broken && !r2.broken {
      FirstBrokenCons(r3, added, v);
    }
    if !r1.broken {
      FirstBrokenCons(r2, [r3] + added, v);
    }
    FirstBrokenCons(r1, [r2] + ([r3] + added), v);
  }

  /** What a modify adds: on the order's own side the increase, on the other side all of it. */
  function AddedByModify(was: OpenOrder, side: Side, qty: U32): int
  {
    if side == was.side then qty - was.qty else qty
  }

  /** The verdict on a modify likewise; on the order's own side only an increase is held against the rules on what is
      added. */
  lemma ModifyVerdict(l: Limits, s: State, id: OrderId, side: Side, qty: U32, price: I32)
    ensures
      var more :=
        if id !in s.open || (side == s.open[id].side && qty <= s.open[id].qty) then []
        else AddedRules(l, s, side, AddedByModify(s.open[id], side, qty), []);
      IsFirstBroken(
        [Rule(s.shutdown, SystemShutdown)] + ([Rule(id !in s.open, UnknownOrderId)]
        + ([Rule(price < l.minValidPrice, InvalidPrice)]
           + ([Rule(qty > l.maxQtyPerOrder, QtyPerOrderExceeded)] + more))),
        CheckModify(l, s, id, side, qty, price))
  {
    var v := CheckModify(l, s, id, side, qty, price);
    var more :=
      if id !in s.open || (side == s.open[id].side && qty <= s.open[id].qty) then []
      else AddedRules(l, s, side, AddedByModify(s.open[id], side, qty), []);
    var r1, r2 := Rule(s.shutdown, SystemShutdown), Rule(id !in s.open, UnknownOrderId);
    var r3, r4 := Rule(price < l.minValidPrice, InvalidPrice), Rule(qty > l.maxQtyPerOrder, QtyPerOrderExceeded);
    OneRule(r1);
    if !r1.broken && !r2.broken && !r3.broken && !r4.broken && more != [] {
      AddedVerdict(l, s, side, AddedByModify(s.open[id], side, qty), [], v);
    }
    if !r1.broken && !r2.broken && !r3.broken {
      FirstBrokenCons(r4, more, v);
    }
    if !r1.broken && !r2.broken {
      FirstBrokenCons(r3, [r4] + more, v);
    }
    if !r1.broken {
      FirstBrokenCons(r2, [r3] + ([r4] + more), v);
    }
    FirstBrokenCons(r1, [r2] + ([r3] + ([r4] + more)), v);
  }

  /** And on the rates. */
  lemma RatesVerdict(l: Limits, r: Rates)
    ensures
      IsFirstBroken([Rule(r.thisSecond >= l.maxPerSecond, RatePerSecond)]
                    + ([Rule(r.thisSeqNum >= l.maxPerSeqNum, RatePerSeqNum)]
                       + ([Rule(r.unacked >= l.maxUnacked, UnackedExceeded)] + [])), CheckRates(l, r))
  {
    var v, r3 := CheckRates(l, r), Rule(r.unacked >= l.maxUnacked, UnackedExceeded);
    var r1 := Rule(r.thisSecond >= l.maxPerSecond, RatePerSecond);
    var r2 := Rule(r.thisSeqNum >= l.maxPerSeqNum, RatePerSeqNum);
    OneRule(r3);
    if !r1.broken {
      FirstBrokenCons(r2, [r3] + [], v);
    }
    FirstBrokenCons(r1, [r2] + ([r3] + []), v);
  }

  /** The requests of the current window, as of `now`: a second later it is a new one. */
  function InThisWindow(r: Rates, now: int): nat
  {
    if now - r.windowStart >= 1_000_000_000 then 0 else r.thisSecond
  }

  predicate RatesAllow(l: Limits, r: Rates, now: int)
  {
    InThisWindow(r, now) < l.maxPerSecond && r.thisSeqNum < l.maxPerSeqNum && r.unacked < l.maxUnacked
  }

  lemma WindowByMillis(r: Rates, now: int)
    ensures Refresh(r, now).thisSecond == InThisWindow(r, now)
    ensures Refresh(r, now).thisSeqNum == r.thisSeqNum && Refresh(r, now).unacked == r.unacked
  {
    assert (now - r.windowStart) / MILLI >= 1000 <==> now - r.windowStart >= 1000 * MILLI;
  }

  /** A request goes out exactly when it passes the checks and every rate still allows one. */
  lemma ForwardsIff(l: Limits, s: State, e: Event)
    ensures
      Forwards(l, s, e) <==>
        match e
        case SendNew(now, id, _, side, qty, price, _, _) =>
          && !s.shutdown && l.minValidPrice <= price && qty <= l.maxQtyPerOrder && id !in s.open
          && RoomFor(l, s, side, qty) && RatesAllow(l, s.rates, now)
        case SendModify(now, id, side, qty, price, _, _) =>
          && !s.shutdown && id in s.open && l.minValidPrice <= price && qty <= l.maxQtyPerOrder
          && (if side == s.open[id].side then
                qty <= s.open[id].qty || RoomFor(l, s, side, qty - s.open[id].qty)
              else RoomFor(l, s, side, qty))
          && RatesAllow(l, s.rates, now)
        case _ => false
  {
    if e.SendNew? {
      NewAdmittedIff(l, s, e.id, e.side, e.qty, e.price);
      WindowByMillis(s.rates, e.now);
    } else if e.SendModify? {
      ModifyAdmittedIff(l, s, e.id, e.side, e.qty, e.price);
      WindowByMillis(s.rates, e.now);
    }
  }

  // ---- what is registered

  /** `now` is `want`, or, after a shutdown in this call, the part of it whose deletion was refused. */
  ghost predicate Kept<T>(want: map<OrderId, T>, now: map<OrderId, T>, stopped: bool, refused: set<OrderId>)
  {
    forall id :: (id in now <==> id in want && (!stopped || id in refused)) && (id in now ==> now[id] == want[id])
  }

  predicate SameMoney(s: State, s': State)
  {
    s'.position == s.position && s'.pnl == s.pnl
  }

  /** A new order that goes out and is accepted is registered as it was sent; a refused one leaves no trace. */
  lemma NewRegistered(l: Limits, s: State, e: Event)
    requires e.SendNew? && Forwards(l, s, e)
    ensures
      var s' := Step(l, s, e);
      && SameMoney(s, s')
      && Kept(if e.accepted then s.open[e.id := OpenOrder(e.symbol, e.side, e.qty, e.price)] else s.open,
              s'.open, s'.shutdown, e.refused)
      && (!s'.shutdown ==>
            && s'.exposure.pending == (if e.accepted then s.exposure.pending[e.id := Pending(e.side, e.qty, e.price)]
                                       else s.exposure.pending)
            && s'.exposure.outBuy == s.exposure.outBuy + (if e.accepted && e.side == Buy then e.qty else 0)
            && s'.exposure.outSell == s.exposure.outSell + (if e.accepted && e.side != Buy then e.qty else 0))
  {
  }

  /** An accepted modify replaces side, quantity and price, remainder included; the symbol stays. */
  lemma ModifyRegistered(l: Limits, s: State, e: Event)
    requires e.SendModify? && Forwards(l, s, e)
    ensures
      var s' := Step(l, s, e);
      && SameMoney(s, s') && e.id in s.open
      && Kept(if e.accepted then s.open[e.id := OpenOrder(s.open[e.id].symbol, e.side, e.qty, e.price)] else s.open,
              s'.open, s'.shutdown, e.refused)
      && (!s'.shutdown ==>
            s'.exposure.pending
              == if e.accepted then s.exposure.pending[e.id := Pending(e.side, e.qty, e.price)] else s.exposure.pending)
  {
  }

  /** A request that does not go out changes nothing but the rate window. */
  lemma BlockedChangesNothing(l: Limits, s: State, e: Event)
    requires (e.SendNew? || e.SendModify?) && !Forwards(l, s, e)
    ensures
      var s' := Step(l, s, e);
      SameMoney(s, s') && s'.exposure == s.exposure && s'.open == s.open && s'.shutdown == s.shutdown
  {
  }

  /** An order rejected or closed by the exchange, or deleted with its consent, is gone, with what remained of it. */
  lemma GoneForgets(l: Limits, s: State, id: OrderId, e: Event)
    requires e == Gone(id) || e == SendDelete(id, true)
    ensures
      var s' := Step(l, s, e);
      var rest := if id in s.exposure.pending then s.exposure.pending[id].qty else 0;
      var buy := id in s.exposure.pending && s.exposure.pending[id].side == Buy;
      && id !in s'.open && id !in s'.exposure.pending && SameMoney(s, s') && s'.shutdown == s.shutdown
      && (forall other | other != id ::
            && (other in s'.open <==> other in s.open) && (other in s.open ==> s'.open[other] == s.open[other])
            && (other in s'.exposure.pending <==> other in s.exposure.pending)
            && (other in s.exposure.pending ==> s'.exposure.pending[other] == s.exposure.pending[other]))
      && s'.exposure.outBuy == s.exposure.outBuy - (if buy then rest else 0)
      && s'.exposure.outSell == s.exposure.outSell - (if buy then 0 else rest)
  {
  }

  /** A fill of a known order moves position and money by what was filled, and its remainder with the total of its side;
      nothing left over means nothing outstanding. Whether the order stays known is the exchange's word alone. A fill of
      an unknown order changes nothing. */
  lemma FillRegistered(l: Limits, s: State, e: Event)
    requires e.Filled?
    ensures e.id !in s.open ==> Step(l, s, e) == s
    ensures
      e.id in s.open ==>
        var s', buy := Step(l, s, e), s.open[e.id].side == Buy;
        && s'.position == (if buy then s.position + e.qty else s.position - e.qty)
        && s'.pnl.position == (if buy then s.pnl.position + e.qty else s.pnl.position - e.qty)
        && s'.pnl.buyCost == s.pnl.buyCost + (if buy then e.qty * e.price else 0)
        && s'.pnl.sellRevenue == s.pnl.sellRevenue + (if buy then 0 else e.qty * e.price)
        && s'.pnl.mark == s.pnl.mark
        && Kept(if e.closed then s.open - {e.id} else s.open, s'.open, s'.shutdown && !s.shutdown, e.refused)
  {
  }

  lemma FillShrinks(e: Exposure, id: OrderId, qty: U32)
    ensures
      var e' := OnOrderFilled(e, id, qty);
      if id !in e.pending then e' == e
      else
        var p := e.pending[id];
        && (id !in e'.pending <==> p.qty == qty)
        && (id in e'.pending ==> e'.pending[id] == Pending(p.side, p.qty - qty, p.price))
        && (forall other | other != id ::
              (other in e'.pending <==> other in e.pending)
              && (other in e.pending ==> e'.pending[other] == e.pending[other]))
        && e'.outBuy == e.outBuy - (if p.side == Buy then qty else 0)
        && e'.outSell == e.outSell - (if p.side == Buy then 0 else qty)
  {
  }

  /** A deletion the exchange refuses changes nothing; asking for all leaves exactly the refused ones. */
  lemma RefusedStays(l: Limits, s: State, id: OrderId, refused: set<OrderId>)
    ensures Step(l, s, SendDelete(id, false)) == s
    ensures
      var s' := Step(l, s, SendCancelAll(refused));
      SameMoney(s, s') && s'.shutdown == s.shutdown && Kept(s.open, s'.open, true, refused)
  {
  }

  // ---- prices on every run

  predicate PricesValid(l: Limits, s: State)
  {
    && (forall id | id in s.open :: l.minValidPrice <= s.open[id].price)
    && (forall id | id in s.exposure.pending :: l.minValidPrice <= s.exposure.pending[id].price)
  }

  lemma StepPrices(l: Limits, s: State, e: Event)
    requires PricesValid(l, s)
    ensures PricesValid(l, Step(l, s, e))
    ensures Forwards(l, s, e) ==> l.minValidPrice <= e.price
  {
    ForwardsIff(l, s, e);
    match e {
      case SendNew(now, id, symbol, side, qty, price, accepted, refused) =>
        if Forwards(l, s, e) {
          var sent := Sent(s, now);
          assert PricesValid(l, Add(sent, id, symbol, side, qty, price));
          ShutdownPrices(l, if accepted then Add(sent, id, symbol, side, qty, price) else sent, refused);
        }
      case SendModify(now, id, side, qty, price, accepted, refused) =>
        if Forwards(l, s, e) {
          var sent := Sent(s, now);
          ChangePrices(l, sent, id, side, qty, price);
          ShutdownPrices(l, if accepted then Change(sent, id, side, qty, price) else sent, refused);
        }
      case SendDelete(_, _) =>
      case SendCancelAll(refused) =>
      case Filled(id, qty, price, closed, refused) =>
        if id in s.open {
          ShutdownPrices(l, Book(s, id, qty, price, closed), refused);
        }
      case Gone(_) =>
      case MarkPrice(_) =>
      case SeqNum(_) =>
      case CheckNow(refused) => ShutdownPrices(l, s, refused);
    }
  }

  lemma ShutdownPrices(l: Limits, s: State, refused: set<OrderId>)
    requires PricesValid(l, s)
    ensures PricesValid(l, CheckShutdown(l, s, refused))
  {
  }

  lemma ChangePrices(l: Limits, s: State, id: OrderId, side: Side, qty: U32, price: I32)
    requires PricesValid(l, s) && id in s.open && l.minValidPrice <= price
    ensures PricesValid(l, Change(s, id, side, qty, price))
  {
  }

  /** The prices of the requests that go out during a run. */
  ghost function ForwardedPrices(l: Limits, s: State, es: seq<Event>): seq<I32>
    decreases |es|
  {
    if es == [] then []
    else
      (if (es[0].SendNew? || es[0].SendModify?) && Forwards(l, s, es[0]) then [es[0].price] else [])
        + ForwardedPrices(l, Step(l, s, es[0]), es[1..])
  }

  /** On every run, no request goes out and no order is registered below the smallest valid price. */
  lemma {:induction false} RunPrices(l: Limits, s: State, es: seq<Event>)
    requires PricesValid(l, s)
    ensures PricesValid(l, Run(l, s, es))
    ensures forall i | 0 <= i < |ForwardedPrices(l, s, es)| :: l.minValidPrice <= ForwardedPrices(l, s, es)[i]
    decreases |es|
  {
    if es != [] {
      StepPrices(l, s, es[0]);
      RunPrices(l, Step(l, s, es[0]), es[1..]);
    }
  }

  // ---- when the engine stops

  /** What selling everything at the mark would leave, against the floor. */
  predicate BelowFloor(l: Limits, p: Pnl)
  {
    (p.sellRevenue - p.buyCost + p.position * p.mark) as real < l.minPnl
  }

  /** The calls that end with a look at profit and position. */
  predicate Looks(l: Limits, s: State, e: Event)
  {
    e.CheckNow? || (e.Filled? && e.id in s.open) || Forwards(l, s, e)
  }

  /** The engine is shut down after a call exactly when it was before, or the call looks and finds the profit below its
      floor or the position past its limit. */
  lemma ShutsDownIff(l: Limits, s: State, e: Event)
    ensures
      var s' := Step(l, s, e);
      s'.shutdown <==>
        s.shutdown || (Looks(l, s, e)
                       && (BelowFloor(l, s'.pnl) || s'.position > l.maxPosition || s'.position < 0 - l.maxPosition))
  {
  }

  predicate LossGuarded(l: Limits, s: State)
  {
    BelowFloor(l, s.pnl) ==> s.shutdown
  }

  /** Only a new mark can leave a loss without a shutdown, until the next look. */
  lemma StepLossGuardedIff(l: Limits, s: State, e: Event)
    requires LossGuarded(l, s)
    ensures LossGuarded(l, Step(l, s, e)) <==> (e.MarkPrice? ==> BelowFloor(l, s.pnl.(mark := e.mark)) ==> s.shutdown)
  {
    ShutsDownIff(l, s, e);
  }

  /** The count of unacknowledged requests never moves, so its limit binds on no run unless it is 0. */
  lemma {:induction false} RunUnacked(l: Limits, s: State, es: seq<Event>)
    ensures Run(l, s, es).rates.unacked == s.rates.unacked
    decreases |es|
  {
    if es != [] {
      RunUnacked(l, Step(l, s, es[0]), es[1..]);
    }
  }
}
