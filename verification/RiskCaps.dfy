/** What the risk engine guarantees on every run: consistent tracking and capped exposure. */
module RiskCaps {
  import opened Market
  import opened Sums
  import opened Risk

  function AllPending(e: Exposure, buy: bool): map<OrderId, int>
  {
    PendingQty(e.pending, e.pending.Keys, buy)
  }

  /** The outstanding totals are the sums over the pending orders of each side. */
  ghost predicate TotalsRight(e: Exposure)
  {
    e.outBuy == Total(AllPending(e, true)) && e.outSell == Total(AllPending(e, false))
  }

  /** The two order maps hold the same ids with the same sides; nothing remains beyond what was registered. */
  predicate SameOrders(s: State)
  {
    && s.exposure.pending.Keys == s.open.Keys
    && forall id | id in s.open ::
         s.exposure.pending[id].side == s.open[id].side && 0 <= s.exposure.pending[id].qty <= s.open[id].qty
  }

  predicate OrdersCapped(l: Limits, s: State)
  {
    forall id | id in s.open :: s.open[id].qty <= l.maxQtyPerOrder
  }

  ghost predicate Consistent(l: Limits, s: State)
  {
    SameOrders(s) && OrdersCapped(l, s) && TotalsRight(s.exposure) && s.pnl.position == s.position
  }

  predicate Capped(l: Limits, s: State)
  {
    && s.exposure.outBuy <= l.maxQtyPerSide && s.exposure.outSell <= l.maxQtyPerSide
    && BuyExposure(s) <= l.maxExposure && SellExposure(s) <= l.maxExposure
  }

  /** What the exchange promises: no fill exceeds what remains, and the last one closes the order. */
  predicate FillHonest(s: State, e: Event)
  {
    e.Filled? && e.id in s.open && e.id in s.exposure.pending ==>
      e.qty <= s.exposure.pending[e.id].qty && (e.closed <==> e.qty == s.exposure.pending[e.id].qty)
  }

  /** A same-side modify of a partly filled order must not ask for more than remains. */
  predicate ModifySafe(s: State, e: Event)
  {
    e.SendModify? && e.id in s.open && e.id in s.exposure.pending && s.open[e.id].side == e.side ==>
      s.exposure.pending[e.id].qty == s.open[e.id].qty || e.qty <= s.exposure.pending[e.id].qty
  }

  // ---- totals

  lemma PutTotals(e: Exposure, id: OrderId, side: Side, qty: U32, price: I32)
    requires TotalsRight(e) && id !in e.pending
    ensures TotalsRight(OnOrderSent(e, id, side, qty, price))
  {
    var e' := OnOrderSent(e, id, side, qty, price);
    forall buy: bool
      ensures Total(AllPending(e', buy)) == Total(AllPending(e, buy)) + if (side == Buy) == buy then qty else 0
    {
      var was := AllPending(e, buy);
      assert was - {id} == was;
      if (side == Buy) == buy {
        assert AllPending(e', buy) == was[id := qty];
        TotalPut(was, id, qty);
      } else {
        assert AllPending(e', buy) == was;
      }
    }
  }

  lemma RemoveTotals(e: Exposure, id: OrderId)
    requires TotalsRight(e)
    ensures TotalsRight(OnOrderRemoved(e, id))
  {
    if id in e.pending {
      var e' := OnOrderRemoved(e, id);
      forall buy: bool
        ensures Total(AllPending(e', buy)) == Total(AllPending(e, buy))
             - if (e.pending[id].side == Buy) == buy then e.pending[id].qty else 0
      {
        var was := AllPending(e, buy);
        assert AllPending(e', buy) == was - {id};
        if id in was {
          TotalSplit(was, id);
        } else {
          assert was - {id} == was;
        }
      }
    }
  }

  lemma FillTotal(e: Exposure, id: OrderId, qty: U32, buy: bool)
    requires id in e.pending
    ensures Total(AllPending(OnOrderFilled(e, id, qty), buy))
         == Total(AllPending(e, buy)) - if (e.pending[id].side == Buy) == buy then qty else 0
  {
    var was, now := AllPending(e, buy), AllPending(OnOrderFilled(e, id, qty), buy);
    if id in was {
      TotalChange(was, now, id, qty);
    } else {
      assert now == was;
    }
  }

  lemma FillTotals(e: Exposure, id: OrderId, qty: U32)
    requires TotalsRight(e)
    ensures TotalsRight(OnOrderFilled(e, id, qty))
  {
    if id in e.pending {
      FillTotal(e, id, qty, true);
      FillTotal(e, id, qty, false);
    }
  }

  lemma RemoveAllTotals(e: Exposure, ids: set<OrderId>)
    requires TotalsRight(e)
    ensures TotalsRight(RemoveAll(e, ids))
    decreases ids
  {
    if ids == {} {
      assert PendingQty(e.pending, ids, true) == map[] && PendingQty(e.pending, ids, false) == map[];
      assert e.pending - ids == e.pending;
    } else {
      var id := Member(ids);
      RemoveAllStep(e, ids - {id}, id);
      RemoveAllTotals(e, ids - {id});
      RemoveTotals(RemoveAll(e, ids - {id}), id);
      assert ids - {id} + {id} == ids;
    }
  }

  /** Removing one more is removing it from what is left. */
  lemma RemoveAllStep(e: Exposure, ids: set<OrderId>, id: OrderId)
    requires id !in ids
    ensures RemoveAll(e, ids + {id}) == OnOrderRemoved(RemoveAll(e, ids), id)
  {
    assert e.pending - (ids + {id}) == e.pending - ids - {id};
    forall buy: bool
      ensures Total(PendingQty(e.pending, ids + {id}, buy)) == Total(PendingQty(e.pending, ids, buy))
           + if id in e.pending && (e.pending[id].side == Buy) == buy then e.pending[id].qty else 0
    {
      var more, fewer := PendingQty(e.pending, ids + {id}, buy), PendingQty(e.pending, ids, buy);
      if id in more {
        TotalSplit(more, id);
        assert more - {id} == fewer;
      } else {
        assert more == fewer;
      }
    }
    if id !in e.pending {
      assert e.pending - ids - {id} == e.pending - ids;
    }
  }

  /** Removing orders only lowers the outstanding totals. */
  lemma RemoveAllLowers(e: Exposure, ids: set<OrderId>)
    requires forall id | id in e.pending :: 0 <= e.pending[id].qty
    ensures RemoveAll(e, ids).outBuy <= e.outBuy && RemoveAll(e, ids).outSell <= e.outSell
  {
    TotalNonNegative(PendingQty(e.pending, ids, true));
    TotalNonNegative(PendingQty(e.pending, ids, false));
  }

  // ---- each kind of change

  lemma CancelAllKeeps(l: Limits, s: State, refused: set<OrderId>)
    requires Consistent(l, s)
    ensures Consistent(l, CancelAll(s, refused))
    ensures Capped(l, s) ==> Capped(l, CancelAll(s, refused))
  {
    RemoveAllTotals(s.exposure, s.open.Keys - refused);
    RemoveAllLowers(s.exposure, s.open.Keys - refused);
  }

  lemma CheckShutdownKeeps(l: Limits, s: State, refused: set<OrderId>)
    requires Consistent(l, s)
    ensures Consistent(l, CheckShutdown(l, s, refused))
    ensures Capped(l, s) ==> Capped(l, CheckShutdown(l, s, refused))
  {
    CancelAllKeeps(l, s.(shutdown := true), refused);
  }

  lemma ForgetKeeps(l: Limits, s: State, id: OrderId)
    requires Consistent(l, s)
    ensures Consistent(l, Forget(s, id))
    ensures Capped(l, s) ==> Capped(l, Forget(s, id))
  {
    RemoveTotals(s.exposure, id);
  }

  /** A fill moves quantity from outstanding to position: neither side's exposure rises. */
  lemma FillLowers(s: State, e: Event)
    requires SameOrders(s) && e.Filled? && e.id in s.open
    ensures
      var s' := Book(s, e.id, e.qty, e.price, e.closed);
      && BuyExposure(s') <= BuyExposure(s) && SellExposure(s') <= SellExposure(s)
      && s'.exposure.outBuy <= s.exposure.outBuy && s'.exposure.outSell <= s.exposure.outSell
  {
  }

  lemma FillKeeps(l: Limits, s: State, e: Event)
    requires Consistent(l, s) && e.Filled? && e.id in s.open && FillHonest(s, e)
    ensures Consistent(l, Book(s, e.id, e.qty, e.price, e.closed))
    ensures Capped(l, s) ==> Capped(l, Book(s, e.id, e.qty, e.price, e.closed))
  {
    FillTotals(s.exposure, e.id, e.qty);
    FillLowers(s, e);
    var s' := Book(s, e.id, e.qty, e.price, e.closed);
    assert SameOrders(s') by {
      assert s'.exposure.pending.Keys == s'.open.Keys;
    }
  }

  /** Rate counters play no part in tracking or caps. */
  lemma RatesApart(l: Limits, s: State, rates: Rates)
    requires Consistent(l, s)
    ensures Consistent(l, s.(rates := rates))
    ensures Capped(l, s) <==> Capped(l, s.(rates := rates))
  {
  }

  lemma ChecksIgnoreRates(l: Limits, s: State, rates: Rates, id: OrderId, side: Side, qty: U32, price: I32)
    ensures CheckNew(l, s.(rates := rates), id, side, qty, price) == CheckNew(l, s, id, side, qty, price)
    ensures CheckModify(l, s.(rates := rates), id, side, qty, price) == CheckModify(l, s, id, side, qty, price)
  {
    CheckAddedIgnoresRates(l, s, rates, side, qty);
    if id in s.open {
      CheckAddedIgnoresRates(l, s, rates, side, qty - s.open[id].qty);
    }
  }

  lemma CheckAddedIgnoresRates(l: Limits, s: State, rates: Rates, side: Side, qty: int)
    ensures CheckAdded(l, s.(rates := rates), side, qty) == CheckAdded(l, s, side, qty)
  {
  }

  lemma AddKeeps(l: Limits, s: State, id: OrderId, symbol: U32, side: Side, qty: U32, price: I32)
    requires Consistent(l, s) && CheckNew(l, s, id, side, qty, price) == Ok
    ensures Consistent(l, Add(s, id, symbol, side, qty, price))
    ensures Capped(l, s) ==> Capped(l, Add(s, id, symbol, side, qty, price))
  {
    PutTotals(s.exposure, id, side, qty, price);
    assert SameOrders(Add(s, id, symbol, side, qty, price));
  }

  lemma ChangeKeeps(l: Limits, s: State, id: OrderId, side: Side, qty: U32, price: I32)
    requires Consistent(l, s) && id in s.open && qty <= l.maxQtyPerOrder
    ensures Consistent(l, Change(s, id, side, qty, price))
  {
    var s' := Change(s, id, side, qty, price);
    assert TotalsRight(s'.exposure) by {
      RemoveTotals(s.exposure, id);
      PutTotals(OnOrderRemoved(s.exposure, id), id, side, qty, price);
    }
    assert SameOrders(s');
  }

  lemma ChangeCaps(l: Limits, s: State, id: OrderId, side: Side, qty: U32, price: I32)
    requires Consistent(l, s) && Capped(l, s) && CheckModify(l, s, id, side, qty, price) == Ok
    requires
      s.open[id].side == side ==>
        s.exposure.pending[id].qty == s.open[id].qty || qty <= s.exposure.pending[id].qty
    ensures Capped(l, Change(s, id, side, qty, price))
  {
  }

  // ---- every call

  lemma SendNewKeeps(l: Limits, s: State, e: Event)
    requires Consistent(l, s) && e.SendNew?
    ensures Consistent(l, Step(l, s, e))
    ensures Capped(l, s) ==> Capped(l, Step(l, s, e))
  {
    RatesApart(l, s, Refresh(s.rates, e.now));
    if Forwards(l, s, e) {
      var sent := Sent(s, e.now);
      RatesApart(l, s, sent.rates);
      ChecksIgnoreRates(l, s, sent.rates, e.id, e.side, e.qty, e.price);
      if e.accepted {
        AddKeeps(l, sent, e.id, e.symbol, e.side, e.qty, e.price);
        CheckShutdownKeeps(l, Add(sent, e.id, e.symbol, e.side, e.qty, e.price), e.refused);
      } else {
        CheckShutdownKeeps(l, sent, e.refused);
      }
    }
  }

  lemma ModifyAcceptedKeeps(l: Limits, s: State, e: Event)
    requires Consistent(l, s) && e.SendModify? && Forwards(l, s, e)
    ensures
      var s' := Change(Sent(s, e.now), e.id, e.side, e.qty, e.price);
      Consistent(l, s') && (Capped(l, s) && ModifySafe(s, e) ==> Capped(l, s'))
  {
    var sent := Sent(s, e.now);
    RatesApart(l, s, sent.rates);
    ChecksIgnoreRates(l, s, sent.rates, e.id, e.side, e.qty, e.price);
    assert e.qty <= l.maxQtyPerOrder;
    ChangeKeeps(l, sent, e.id, e.side, e.qty, e.price);
    if Capped(l, s) && ModifySafe(s, e) {
      ChangeCaps(l, sent, e.id, e.side, e.qty, e.price);
    }
  }

  lemma SendModifyKeeps(l: Limits, s: State, e: Event)
    requires Consistent(l, s) && e.SendModify?
    ensures Consistent(l, Step(l, s, e))
    ensures Capped(l, s) && ModifySafe(s, e) ==> Capped(l, Step(l, s, e))
  {
    if !Forwards(l, s, e) {
      RatesApart(l, s, Refresh(s.rates, e.now));
    } else if !e.accepted {
      RatesApart(l, s, Sent(s, e.now).rates);
      CheckShutdownKeeps(l, Sent(s, e.now), e.refused);
    } else {
      var s' := Change(Sent(s, e.now), e.id, e.side, e.qty, e.price);
      assert Step(l, s, e) == CheckShutdown(l, s', e.refused);
      ModifyAcceptedKeeps(l, s, e);
      CheckShutdownKeeps(l, s', e.refused);
    }
  }

  lemma FilledKeeps(l: Limits, s: State, e: Event)
    requires Consistent(l, s) && e.Filled? && FillHonest(s, e)
    ensures Consistent(l, Step(l, s, e))
    ensures Capped(l, s) ==> Capped(l, Step(l, s, e))
  {
    if e.id in s.open {
      FillKeeps(l, s, e);
      CheckShutdownKeeps(l, Book(s, e.id, e.qty, e.price, e.closed), e.refused);
    }
  }

  /** Every call keeps the tracking consistent, and the caps too unless it is an unsafe modify. */
  lemma StepKeeps(l: Limits, s: State, e: Event)
    requires Consistent(l, s) && FillHonest(s, e)
    ensures Consistent(l, Step(l, s, e))
    ensures Capped(l, s) && ModifySafe(s, e) ==> Capped(l, Step(l, s, e))
  {
    match e {
      case SendNew(_, _, _, _, _, _, _, _) => SendNewKeeps(l, s, e);
      case SendModify(_, _, _, _, _, _, _) => SendModifyKeeps(l, s, e);
      case SendDelete(id, accepted) => ForgetKeeps(l, s, id);
      case SendCancelAll(refused) => CancelAllKeeps(l, s, refused);
      case Filled(_, _, _, _, _) => FilledKeeps(l, s, e);
      case Gone(id) => ForgetKeeps(l, s, id);
      case MarkPrice(_) =>
      case SeqNum(_) =>
      case CheckNow(refused) => CheckShutdownKeeps(l, s, refused);
    }
  }

  // ---- every run

  ghost predicate Honest(l: Limits, s: State, es: seq<Event>)
    decreases |es|
  {
    es != [] ==> FillHonest(s, es[0]) && Honest(l, Step(l, s, es[0]), es[1..])
  }

  ghost predicate Safe(l: Limits, s: State, es: seq<Event>)
    decreases |es|
  {
    es != [] ==> ModifySafe(s, es[0]) && Safe(l, Step(l, s, es[0]), es[1..])
  }

  lemma {:induction false} RunConsistent(l: Limits, s: State, es: seq<Event>)
    requires Consistent(l, s) && Honest(l, s, es)
    ensures Consistent(l, Run(l, s, es))
    decreases |es|
  {
    if es != [] {
      StepKeeps(l, s, es[0]);
      RunConsistent(l, Step(l, s, es[0]), es[1..]);
    }
  }

  lemma {:induction false} RunCapped(l: Limits, s: State, es: seq<Event>)
    requires Consistent(l, s) && Capped(l, s) && Honest(l, s, es) && Safe(l, s, es)
    ensures Capped(l, Run(l, s, es))
    decreases |es|
  {
    if es != [] {
      StepKeeps(l, s, es[0]);
      RunCapped(l, Step(l, s, es[0]), es[1..]);
    }
  }

  lemma InitialOk(l: Limits, start: int)
    ensures Consistent(l, Initial(start)) && Capped(l, Initial(start))
  {
    assert AllPending(Initial(start).exposure, true) == map[];
    assert AllPending(Initial(start).exposure, false) == map[];
  }

  /** From the start, on every run with honest fills and safe modifies, outstanding totals and both exposures stay
      within their limits; so the position can never pass the exposure limit. */
  lemma ExposureBounded(l: Limits, start: int, es: seq<Event>)
    requires Honest(l, Initial(start), es) && Safe(l, Initial(start), es)
    ensures
      var s := Run(l, Initial(start), es);
      Consistent(l, s) && Capped(l, s) && Abs(s.position) <= l.maxExposure
  {
    InitialOk(l, start);
    RunConsistent(l, Initial(start), es);
    RunCapped(l, Initial(start), es);
    var e := Run(l, Initial(start), es).exposure;
    TotalNonNegative(AllPending(e, true));
    TotalNonNegative(AllPending(e, false));
  }

  /** While the caps hold, every sum the checks form fits its machine word, given limits that themselves fit; so
      unbounded integers lose nothing. */
  lemma ArithmeticFits(l: Limits, s: State, side: Side, qty: U32)
    requires Consistent(l, s) && Capped(l, s) && qty <= l.maxQtyPerOrder
    requires l.maxQtyPerSide + l.maxQtyPerOrder < TWO_32 && l.maxExposure + l.maxQtyPerOrder < TWO_31
    ensures 0 <= Outstanding(s.exposure, side) && Outstanding(s.exposure, side) + qty < TWO_32
    ensures 0 <= BuyExposure(s) && BuyExposure(s) + qty < TWO_31
    ensures 0 <= SellExposure(s) && SellExposure(s) + qty < TWO_31
    ensures -TWO_31 < s.position - qty && s.position + qty < TWO_31
  {
    TotalNonNegative(AllPending(s.exposure, true));
    TotalNonNegative(AllPending(s.exposure, false));
  }

  /** The checks with every sum put through the arithmetic of its word. */
  function CheckAddedIn(unsigned: int -> int, signed: int -> int, l: Limits, s: State, side: Side, qty: U32): Verdict
  {
    var exposure := unsigned(if side == Buy then BuyExposure(s) else SellExposure(s));
    if unsigned(Outstanding(s.exposure, side) + qty) > l.maxQtyPerSide then QtyPerSideExceeded
    else if unsigned(exposure + qty) > l.maxExposure then ExposureExceeded
    else if AtLimit(l, s) && WouldIncreaseAbsPosition(s, side) then PositionLimitWouldIncrease
    else if Abs(signed(s.position + Signed(side, qty))) > l.maxPosition then PositionLimitExceeded
    else Ok
  }

  lemma FittingVerdict(unsigned: int -> int, signed: int -> int, l: Limits, s: State, side: Side, qty: U32)
    requires
      var total, exposure := Outstanding(s.exposure, side), if side == Buy then BuyExposure(s) else SellExposure(s);
      && unsigned(total + qty) == total + qty
      && unsigned(exposure) == exposure && unsigned(exposure + qty) == exposure + qty
      && signed(s.position + Signed(side, qty)) == s.position + Signed(side, qty)
    ensures CheckAddedIn(unsigned, signed, l, s, side, qty) == CheckAdded(l, s, side, qty)
  {
  }

  function Word(x: int): int { WrapU32(x) }

  function SignedWord(x: int): int { WrapI32(x) }

  /** In 32-bit words, as the source computes them, they come to the same: in every state that keeps the caps, words
      and unbounded integers give one verdict. */
  lemma MachineVerdict(l: Limits, s: State, side: Side, qty: U32)
    requires Consistent(l, s) && Capped(l, s) && qty <= l.maxQtyPerOrder
    requires l.maxQtyPerSide + l.maxQtyPerOrder < TWO_32 && l.maxExposure + l.maxQtyPerOrder < TWO_31
    ensures CheckAddedIn(Word, SignedWord, l, s, side, qty) == CheckAdded(l, s, side, qty)
  {
    var exposure := if side == Buy then BuyExposure(s) else SellExposure(s);
    ArithmeticFits(l, s, side, qty);
    WrapU32Keeps(Outstanding(s.exposure, side) + qty);
    WrapU32Keeps(exposure);
    WrapU32Keeps(exposure + qty);
    WrapI32Keeps(s.position + Signed(side, qty));
    FittingVerdict(Word, SignedWord, l, s, side, qty);
  }

  /** So do the trackers' updates: what an honest fill makes of position and totals fits its word. */
  lemma MachineFill(l: Limits, s: State, e: Event)
    requires Consistent(l, s) && Capped(l, s) && e.Filled? && e.id in s.open && FillHonest(s, e)
    requires l.maxExposure < TWO_31
    ensures
      var s' := Book(s, e.id, e.qty, e.price, e.closed);
      && s'.position == WrapI32(s.position + Signed(s.open[e.id].side, e.qty))
      && s'.exposure.outBuy == WrapU32(s'.exposure.outBuy) && s'.exposure.outSell == WrapU32(s'.exposure.outSell)
  {
    var s' := Book(s, e.id, e.qty, e.price, e.closed);
    FillKeeps(l, s, e);
    TotalNonNegative(AllPending(s'.exposure, true));
    TotalNonNegative(AllPending(s'.exposure, false));
    WrapI32Keeps(s'.position);
    WrapU32Keeps(s'.exposure.outBuy);
    WrapU32Keeps(s'.exposure.outSell);
  }
}
