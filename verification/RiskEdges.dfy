/** Where the caps stop holding: exactly which modifies can break them, and when the position limit is only a
    trigger. */
module RiskEdges {
  import opened Market
  import opened Risk
  import opened RiskCaps
  import opened RiskRates
  import opened Sums

  /** Limits under which only order size and exposure bind. */
  function Generous(maxQty: U32, maxExposure: U32, maxPosition: I32): Limits
  {
    Limits(maxQty, 0xFFFF_FFFF, maxExposure, maxPosition, 10, 10, 1, -1.0e20, 1)
  }

  // ---- same-side modifies

  /** A modify of a resting order, on its own side: `reg` registered, `rem` remaining, `newQty` asked for. */
  predicate Scene(s: State, e: Event, reg: U32, rem: int, newQty: U32)
  {
    && e.SendModify? && e.id in s.open && e.id in s.exposure.pending
    && s.open[e.id].side == e.side && s.open[e.id].qty == reg
    && s.exposure.pending[e.id].qty == rem && e.qty == newQty
  }

  ghost predicate KeepsCaps(l: Limits, s: State, e: Event)
  {
    Capped(l, Step(l, s, e))
  }

  /** Whatever else is going on, the check is enough. */
  ghost predicate ModifySound(reg: U32, rem: int, newQty: U32)
  {
    forall l: Limits, s: State, e: Event ::
      Consistent(l, s) && Capped(l, s) && Scene(s, e, reg, rem, newQty) ==> KeepsCaps(l, s, e)
  }

  /** One order sent, then partly filled. */
  function PartlyFilled(reg: U32, rem: U32): State
  {
    State(reg - rem, Exposure(rem, 0, map[1 := Pending(Buy, rem, 1)]), Pnl(reg - rem, reg - rem, 0, 0),
          map[1 := OpenOrder(1, Buy, reg, 1)], Rates(1, 0, 1, 0, 0), false)
  }

  lemma RunOne(l: Limits, s: State, a: Event)
    ensures Run(l, s, [a]) == Step(l, s, a)
    ensures Honest(l, s, [a]) <==> FillHonest(s, a)
    ensures Safe(l, s, [a]) <==> ModifySafe(s, a)
  {
    assert [a][1..] == [];
    assert Run(l, Step(l, s, a), []) == Step(l, s, a);
    assert Honest(l, Step(l, s, a), []) && Safe(l, Step(l, s, a), []);
  }

  lemma RunTwo(l: Limits, s: State, a: Event, b: Event)
    ensures Run(l, s, [a, b]) == Step(l, Step(l, s, a), b)
    ensures Honest(l, s, [a, b]) <==> FillHonest(s, a) && FillHonest(Step(l, s, a), b)
    ensures Safe(l, s, [a, b]) <==> ModifySafe(s, a) && ModifySafe(Step(l, s, a), b)
  {
    assert [a, b][1..] == [b];
    RunOne(l, Step(l, s, a), b);
  }

  /** One order sent. */
  function FirstOpen(reg: U32): State
  {
    State(0, Exposure(reg, 0, map[1 := Pending(Buy, reg, 1)]), Pnl(0, 0, 0, 0),
          map[1 := OpenOrder(1, Buy, reg, 1)], Rates(1, 0, 1, 0, 0), false)
  }

  lemma FirstSent(l: Limits, reg: U32)
    requires 0 < reg < TWO_31 && l == Generous(l.maxQtyPerOrder, l.maxExposure, 0x7FFF_FFFF)
    requires reg <= l.maxQtyPerOrder && reg <= l.maxExposure
    ensures Step(l, Initial(0), SendNew(0, 1, 1, Buy, reg, 1, true, {})) == FirstOpen(reg)
  {
    var s := Initial(0);
    assert CheckNew(l, s, 1, Buy, reg, 1) == Ok;
    assert Add(Sent(s, 0), 1, 1, Buy, reg, 1) == FirstOpen(reg);
    assert !Breached(l, FirstOpen(reg));
  }

  lemma FirstFilled(l: Limits, reg: U32, rem: U32)
    requires 0 < rem < reg < TWO_31 && l == Generous(l.maxQtyPerOrder, l.maxExposure, 0x7FFF_FFFF)
    ensures Step(l, FirstOpen(reg), Filled(1, reg - rem, 1, false, {})) == PartlyFilled(reg, rem)
  {
    assert Book(FirstOpen(reg), 1, reg - rem, 1, false) == PartlyFilled(reg, rem);
    assert TotalPnl(PartlyFilled(reg, rem).pnl) == rem - reg;
    assert !Breached(l, PartlyFilled(reg, rem));
  }

  lemma PartlyFilledReached(l: Limits, reg: U32, rem: U32)
    requires 0 < rem < reg < TWO_31 && l == Generous(l.maxQtyPerOrder, l.maxExposure, 0x7FFF_FFFF)
    requires reg <= l.maxQtyPerOrder && reg <= l.maxExposure
    ensures
      var es := [SendNew(0, 1, 1, Buy, reg, 1, true, {}), Filled(1, reg - rem, 1, false, {})];
      Honest(l, Initial(0), es) && Safe(l, Initial(0), es) && Run(l, Initial(0), es) == PartlyFilled(reg, rem)
  {
    FirstSent(l, reg);
    FirstFilled(l, reg, rem);
    RunTwo(l, Initial(0), SendNew(0, 1, 1, Buy, reg, 1, true, {}), Filled(1, reg - rem, 1, false, {}));
  }

  function Larger(a: U32, b: U32): U32 { if a < b then b else a }

  lemma UnsafeStep(l: Limits, reg: U32, rem: U32, newQty: U32)
    requires 0 < rem < reg < TWO_31 && rem < newQty < TWO_31
    requires l == Generous(Larger(reg, newQty), Larger(reg, newQty), 0x7FFF_FFFF)
    ensures
      BuyExposure(Step(l, PartlyFilled(reg, rem), SendModify(0, 1, Buy, newQty, 1, true, {}))) == reg - rem + newQty
  {
    var s := PartlyFilled(reg, rem);
    var e := SendModify(0, 1, Buy, newQty, 1, true, {});
    assert CheckModify(l, s, 1, Buy, newQty, 1) == Ok;
    assert Forwards(l, s, e);
    var s' := Change(Sent(s, 0), 1, Buy, newQty, 1);
    assert s'.exposure.outBuy == newQty && s'.position == reg - rem;
    assert !Breached(l, s');
  }

  /** Asking a partly filled order for more than remains breaks the exposure cap in a state an honest run reaches. */
  lemma UnsafeModifyBreaksCap(reg: U32, rem: U32, newQty: U32)
    requires 0 < rem < reg < TWO_31 && rem < newQty < TWO_31
    ensures
      var l := Generous(Larger(reg, newQty), Larger(reg, newQty), 0x7FFF_FFFF);
      var e := SendModify(0, 1, Buy, newQty, 1, true, {});
      var s := PartlyFilled(reg, rem);
      && Run(l, Initial(0), [SendNew(0, 1, 1, Buy, reg, 1, true, {}), Filled(1, reg - rem, 1, false, {})]) == s
      && Consistent(l, s) && Capped(l, s) && Scene(s, e, reg, rem, newQty)
      && BuyExposure(Step(l, s, e)) > l.maxExposure
  {
    var l := Generous(Larger(reg, newQty), Larger(reg, newQty), 0x7FFF_FFFF);
    var es := [SendNew(0, 1, 1, Buy, reg, 1, true, {}), Filled(1, reg - rem, 1, false, {})];
    PartlyFilledReached(l, reg, rem);
    ExposureBounded(l, 0, es);
    UnsafeStep(l, reg, rem, newQty);
  }

  /** The modify check is sound for an order exactly when the order is untouched or shrinks to at most what remains. */
  lemma ModifySoundIff(reg: U32, rem: U32, newQty: U32)
    requires 0 < rem <= reg < TWO_31 && newQty < TWO_31
    ensures ModifySound(reg, rem, newQty) <==> rem == reg || newQty <= rem
  {
    if rem == reg || newQty <= rem {
      forall l: Limits, s: State, e: Event | Consistent(l, s) && Capped(l, s) && Scene(s, e, reg, rem, newQty)
        ensures KeepsCaps(l, s, e)
      {
        StepKeeps(l, s, e);
      }
    } else {
      UnsafeModifyBreaksCap(reg, rem, newQty);
      assert !KeepsCaps(Generous(Larger(reg, newQty), Larger(reg, newQty), 0x7FFF_FFFF), PartlyFilled(reg, rem),
                        SendModify(0, 1, Buy, newQty, 1, true, {}));
    }
  }

  // ---- the position limit

  /** Two orders, each within the limit, sent before either fills. */
  function TwoBuys(maxPosition: I32): seq<Event>
    requires 0 < maxPosition
  {
    [SendNew(0, 1, 1, Buy, maxPosition, 1, true, {}), SendNew(0, 2, 1, Buy, 1, 1, true, {}),
     Filled(1, maxPosition, 1, true, {}), Filled(2, 1, 1, true, {})]
  }

  lemma RunFour(l: Limits, s: State, a: Event, b: Event, c: Event, d: Event)
    ensures
      var t := Step(l, Step(l, s, a), b);
      && Run(l, s, [a, b, c, d]) == Step(l, Step(l, t, c), d)
      && (Honest(l, s, [a, b, c, d]) <==>
            FillHonest(s, a) && FillHonest(Step(l, s, a), b) && FillHonest(t, c) && FillHonest(Step(l, t, c), d))
      && (Safe(l, s, [a, b, c, d]) <==>
            ModifySafe(s, a) && ModifySafe(Step(l, s, a), b) && ModifySafe(t, c) && ModifySafe(Step(l, t, c), d))
  {
    var es := [a, b, c, d];
    assert es[1..] == [b, c, d] && es[1..][1..] == [c, d];
    assert [b, c, d][1..] == [c, d];
    RunTwo(l, Step(l, Step(l, s, a), b), c, d);
  }

  lemma TwoBuysOvershoot(maxPosition: I32, maxExposure: U32)
    requires 0 < maxPosition < maxExposure && maxPosition < 0x7FFF_FFFF
    ensures
      var l := Generous(maxExposure, maxExposure, maxPosition);
      var es := TwoBuys(maxPosition);
      && Honest(l, Initial(0), es) && Safe(l, Initial(0), es)
      && Run(l, Initial(0), es).position == maxPosition + 1
  {
    var l := Generous(maxExposure, maxExposure, maxPosition);
    var m, es := maxPosition, TwoBuys(maxPosition);
    var both := map[1 := OpenOrder(1, Buy, m, 1), 2 := OpenOrder(1, Buy, 1, 1)];
    var pending := map[1 := Pending(Buy, m, 1), 2 := Pending(Buy, 1, 1)];
    var s1 := Step(l, Initial(0), es[0]);
    assert s1 == State(0, Exposure(m, 0, map[1 := Pending(Buy, m, 1)]), Pnl(0, 0, 0, 0),
                       map[1 := OpenOrder(1, Buy, m, 1)], Rates(1, 0, 1, 0, 0), false);
    var s2 := Step(l, s1, es[1]);
    assert s2 == State(0, Exposure(m + 1, 0, pending), Pnl(0, 0, 0, 0), both, Rates(2, 0, 2, 0, 0), false);
    var s3 := Step(l, s2, es[2]);
    assert s3.position == m && 2 in s3.open && s3.open[2].side == Buy && s3.exposure.pending[2].qty == 1;
    RunFour(l, Initial(0), es[0], es[1], es[2], es[3]);
    assert es == [es[0], es[1], es[2], es[3]];
  }

  /** The position stays inside its limit even if all that is outstanding on one side fills. */
  predicate Headroom(l: Limits, s: State)
  {
    s.position + s.exposure.outBuy <= l.maxPosition && s.exposure.outSell - s.position <= l.maxPosition
  }

  predicate Untouched(s: State)
  {
    && s.position == 0 && s.open == map[] && s.exposure.outBuy == s.exposure.outSell == 0
    && s.pnl.position == s.pnl.buyCost == s.pnl.sellRevenue == 0
  }

  /** Some limit keeps two orders from being outstanding on one side at a position that either alone would reach. */
  predicate Confined(l: Limits)
  {
    && 0 <= l.maxPosition
    && (l.maxPosition == 0 || l.maxExposure <= l.maxPosition || l.maxQtyPerSide <= 1 || l.maxQtyPerOrder == 0
        || l.maxPerSecond == 0 || l.maxPerSeqNum == 0 || l.maxUnacked == 0 || l.minPnl > 0.0)
  }

  /** What confinement keeps; a profit floor above zero shuts the engine down with its first request. */
  ghost predicate Steady(l: Limits, s: State)
  {
    && Consistent(l, s) && Capped(l, s) && Headroom(l, s)
    && (l.minPnl > 0.0 ==> s.shutdown || Untouched(s))
  }

  lemma OutstandingNonNegative(l: Limits, s: State)
    requires Consistent(l, s)
    ensures 0 <= s.exposure.outBuy && 0 <= s.exposure.outSell
    ensures forall id | id in s.open ::
              0 <= s.exposure.pending[id].qty <= Outstanding(s.exposure, s.open[id].side)
  {
    var buys, sells := AllPending(s.exposure, true), AllPending(s.exposure, false);
    TotalNonNegative(buys);
    TotalNonNegative(sells);
    forall id | id in s.open
      ensures 0 <= s.exposure.pending[id].qty <= Outstanding(s.exposure, s.open[id].side)
    {
      assert if s.open[id].side == Buy then id in buys else id in sells;
    }
  }

  lemma CappedHasHeadroom(l: Limits, s: State)
    requires Capped(l, s) && l.maxExposure <= l.maxPosition
    ensures Headroom(l, s)
  {
  }

  /** Where confinement bites: of what passes the checks, nothing is added to a side that already has some. */
  lemma AddedAlone(l: Limits, s: State, side: Side, qty: int)
    requires Steady(l, s) && Confined(l) && CheckAdded(l, s, side, qty) == Ok
    requires !s.shutdown && l.maxExposure > l.maxPosition && 0 <= qty <= l.maxQtyPerOrder
    requires l.maxPerSecond > 0 && l.maxPerSeqNum > 0 && l.maxUnacked > 0
    ensures qty == 0 || Outstanding(s.exposure, side) == 0
  {
    OutstandingNonNegative(l, s);
  }

  lemma AddHeadroom(l: Limits, s: State, id: OrderId, symbol: U32, side: Side, qty: U32, price: I32)
    requires Steady(l, s) && Confined(l) && CheckNew(l, s, id, side, qty, price) == Ok
    requires l.maxExposure > l.maxPosition && l.maxPerSecond > 0 && l.maxPerSeqNum > 0 && l.maxUnacked > 0
    ensures Headroom(l, Add(s, id, symbol, side, qty, price))
  {
    AddedAlone(l, s, side, qty);
  }

  lemma ChangeHeadroom(l: Limits, s: State, id: OrderId, side: Side, qty: U32, price: I32)
    requires Steady(l, s) && Confined(l) && CheckModify(l, s, id, side, qty, price) == Ok
    requires l.maxExposure > l.maxPosition && l.maxPerSecond > 0 && l.maxPerSeqNum > 0 && l.maxUnacked > 0
    requires
      s.open[id].side == side ==>
        s.exposure.pending[id].qty == s.open[id].qty || qty <= s.exposure.pending[id].qty
    ensures Headroom(l, Change(s, id, side, qty, price))
  {
    OutstandingNonNegative(l, s);
    ChangedTotals(s, id, side, qty, price);
    if side != s.open[id].side {
      AddedAlone(l, s, side, qty);
    } else if qty > s.open[id].qty {
      AddedAlone(l, s, side, qty - s.open[id].qty);
    }
  }

  lemma ChangedTotals(s: State, id: OrderId, side: Side, qty: U32, price: I32)
    requires id in s.open && id in s.exposure.pending
    ensures
      var s', p := Change(s, id, side, qty, price), s.exposure.pending[id];
      && s'.position == s.position
      && s'.exposure.outBuy
           == s.exposure.outBuy - (if p.side == Buy then p.qty else 0) + (if side == Buy then qty else 0)
      && s'.exposure.outSell
           == s.exposure.outSell - (if p.side == Buy then 0 else p.qty) + (if side == Buy then 0 else qty)
  {
  }

  /** A shutdown check leaves the position alone and only lowers what is outstanding. */
  lemma CheckShutdownHeadroom(l: Limits, s: State, refused: set<OrderId>)
    requires Consistent(l, s) && Headroom(l, s)
    ensures Headroom(l, CheckShutdown(l, s, refused))
    ensures CheckShutdown(l, s, refused).shutdown <==> s.shutdown || Breached(l, s)
    ensures Untouched(s) ==> Untouched(CheckShutdown(l, s, refused))
  {
    RemoveAllLowers(s.exposure, s.open.Keys - refused);
    if Untouched(s) {
      assert PendingQty(s.exposure.pending, s.open.Keys - refused, true) == map[];
      assert PendingQty(s.exposure.pending, s.open.Keys - refused, false) == map[];
    }
  }

  lemma SendNewHeadroom(l: Limits, s: State, e: Event)
    requires Steady(l, s) && Confined(l) && l.maxExposure > l.maxPosition && e.SendNew?
    ensures Headroom(l, Step(l, s, e)) && (l.minPnl > 0.0 ==> Step(l, s, e).shutdown || Untouched(Step(l, s, e)))
  {
    if Forwards(l, s, e) {
      var sent := Sent(s, e.now);
      RatesApart(l, s, sent.rates);
      ChecksIgnoreRates(l, s, sent.rates, e.id, e.side, e.qty, e.price);
      if e.accepted {
        AddHeadroom(l, sent, e.id, e.symbol, e.side, e.qty, e.price);
        AddKeeps(l, sent, e.id, e.symbol, e.side, e.qty, e.price);
        CheckShutdownHeadroom(l, Add(sent, e.id, e.symbol, e.side, e.qty, e.price), e.refused);
      } else {
        CheckShutdownHeadroom(l, sent, e.refused);
      }
    }
  }

  lemma SendModifyHeadroom(l: Limits, s: State, e: Event)
    requires Steady(l, s) && Confined(l) && l.maxExposure > l.maxPosition && e.SendModify? && ModifySafe(s, e)
    ensures Headroom(l, Step(l, s, e)) && (l.minPnl > 0.0 ==> Step(l, s, e).shutdown || Untouched(Step(l, s, e)))
  {
    if Forwards(l, s, e) {
      var sent := Sent(s, e.now);
      RatesApart(l, s, sent.rates);
      ChecksIgnoreRates(l, s, sent.rates, e.id, e.side, e.qty, e.price);
      if e.accepted {
        ChangeHeadroom(l, sent, e.id, e.side, e.qty, e.price);
        ChangeKeeps(l, sent, e.id, e.side, e.qty, e.price);
        CheckShutdownHeadroom(l, Change(sent, e.id, e.side, e.qty, e.price), e.refused);
      } else {
        CheckShutdownHeadroom(l, sent, e.refused);
      }
    }
  }

  lemma FilledHeadroom(l: Limits, s: State, e: Event)
    requires Steady(l, s) && FillHonest(s, e) && e.Filled?
    ensures Headroom(l, Step(l, s, e)) && (l.minPnl > 0.0 ==> Step(l, s, e).shutdown || Untouched(Step(l, s, e)))
  {
    if e.id in s.open {
      FillKeeps(l, s, e);
      CheckShutdownHeadroom(l, Book(s, e.id, e.qty, e.price, e.closed), e.refused);
    }
  }

  lemma StepSteady(l: Limits, s: State, e: Event)
    requires Steady(l, s) && Confined(l) && FillHonest(s, e) && ModifySafe(s, e)
    ensures Steady(l, Step(l, s, e))
  {
    StepKeeps(l, s, e);
    OutstandingNonNegative(l, s);
    if e.Filled? {
      FilledHeadroom(l, s, e);
    } else if e.SendNew? && l.maxExposure > l.maxPosition {
      SendNewHeadroom(l, s, e);
    } else if e.SendModify? && l.maxExposure > l.maxPosition {
      SendModifyHeadroom(l, s, e);
    } else if e.SendNew? || e.SendModify? {
      CappedHasHeadroom(l, Step(l, s, e));
      RequestStops(l, s, e);
    } else {
      QuietSteady(l, s, e);
    }
  }

  /** Under a profit floor above zero, a request either changes nothing or is the last. */
  lemma RequestStops(l: Limits, s: State, e: Event)
    requires Steady(l, s) && (e.SendNew? || e.SendModify?)
    ensures l.minPnl > 0.0 ==> Step(l, s, e).shutdown || Untouched(Step(l, s, e))
  {
  }

  lemma QuietSteady(l: Limits, s: State, e: Event)
    requires Steady(l, s) && !e.SendNew? && !e.SendModify? && !e.Filled?
    ensures Headroom(l, Step(l, s, e)) && (l.minPnl > 0.0 ==> Step(l, s, e).shutdown || Untouched(Step(l, s, e)))
  {
    match e {
      case SendDelete(id, accepted) =>
      case SendCancelAll(refused) =>
        RemoveAllLowers(s.exposure, s.open.Keys - refused);
        if Untouched(s) {
          assert PendingQty(s.exposure.pending, s.open.Keys - refused, true) == map[];
          assert PendingQty(s.exposure.pending, s.open.Keys - refused, false) == map[];
        }
      case Gone(id) =>
      case MarkPrice(_) =>
      case SeqNum(_) =>
      case CheckNow(refused) => CheckShutdownHeadroom(l, s, refused);
    }
  }

  lemma {:induction false} RunSteady(l: Limits, s: State, es: seq<Event>)
    requires Steady(l, s) && Confined(l) && Honest(l, s, es) && Safe(l, s, es)
    ensures Steady(l, Run(l, s, es))
    decreases |es|
  {
    if es != [] {
      StepSteady(l, s, es[0]);
      RunSteady(l, Step(l, s, es[0]), es[1..]);
    }
  }

  // a run past the limit, for all other limits: unit buys at the mark, each in a window and under a number of its own

  /** From `s` on, an honest and safe run whose times never go back and that ends past the position limit. */
  ghost predicate Overshoots(l: Limits, s: State, clock: int, es: seq<Event>)
  {
    Honest(l, s, es) && Safe(l, s, es) && Timely(clock, es) && Abs(Run(l, s, es).position) > l.maxPosition
  }

  lemma Prepend(l: Limits, s: State, clock: int, e: Event, es: seq<Event>)
    requires FillHonest(s, e) && ModifySafe(s, e) && clock <= TimeOf(e, clock)
    requires Overshoots(l, Step(l, s, e), TimeOf(e, clock), es)
    ensures Overshoots(l, s, clock, [e] + es)
  {
    assert ([e] + es)[0] == e && ([e] + es)[1..] == es;
  }

  /** Long by `k` at the mark, nothing lost, nothing in the way. */
  predicate Calm(l: Limits, s: State, k: nat, clock: int)
  {
    && s.position == s.pnl.position == k && s.pnl.mark == l.minValidPrice && TotalPnl(s.pnl) == 0
    && !s.shutdown && s.rates.unacked == 0 && s.rates.windowStart <= clock
  }

  function Tick(s: State): Event { SeqNum(if s.rates.lastSeqNum == 0 then 1 else 0) }

  function BuyOne(l: Limits, clock: int, id: OrderId): Event
  {
    SendNew(clock + WINDOW, id, 1, Buy, 1, l.minValidPrice, true, {})
  }

  function FillOne(l: Limits, id: OrderId): Event { Filled(id, 1, l.minValidPrice, true, {}) }

  lemma Places(l: Limits, s: State, k: nat, clock: int, id: OrderId)
    requires !Confined(l) && 0 <= l.maxPosition && Calm(l, s, k, clock) && id !in s.open
    requires 0 <= s.exposure.outBuy <= 1 && k + 1 <= l.maxPosition && k + s.exposure.outBuy + 1 <= l.maxExposure
    ensures
      var u := Step(l, Step(l, s, Tick(s)), BuyOne(l, clock, id));
      && Calm(l, u, k, clock + WINDOW)
      && u.exposure == OnOrderSent(s.exposure, id, Buy, 1, l.minValidPrice)
      && u.open == s.open[id := OpenOrder(1, Buy, 1, l.minValidPrice)]
  {
    var t := Step(l, s, Tick(s));
    assert t == s.(rates := s.rates.(thisSeqNum := 0, lastSeqNum := t.rates.lastSeqNum));
    var r := Refresh(t.rates, clock + WINDOW);
    assert r.thisSecond == 0 && r.thisSeqNum == 0 && r.unacked == 0 && r.windowStart == clock + WINDOW;
    assert CheckNew(l, t, id, Buy, 1, l.minValidPrice) == Ok;
    var u := Add(Sent(t, clock + WINDOW), id, 1, Buy, 1, l.minValidPrice);
    assert !Breached(l, u);
  }

  lemma ProfitAtMark(p: Pnl)
    requires -TWO_31 <= p.mark < TWO_31
    ensures TotalPnl(PnlFill(p, Buy, 1, p.mark as I32)) == TotalPnl(p)
  {
    assert (p.position + 1) * p.mark == p.position * p.mark + p.mark;
  }

  lemma Fills(l: Limits, s: State, k: nat, clock: int, id: OrderId)
    requires !Confined(l) && 0 <= l.maxPosition && Calm(l, s, k, clock)
    requires id in s.open && s.open[id] == OpenOrder(1, Buy, 1, l.minValidPrice)
    requires id in s.exposure.pending && s.exposure.pending[id] == Pending(Buy, 1, l.minValidPrice)
    ensures FillHonest(s, FillOne(l, id))
    ensures
      var u := Step(l, s, FillOne(l, id));
      && u.position == k + 1
      && (k + 1 <= l.maxPosition ==>
            && Calm(l, u, k + 1, clock) && u.open == s.open - {id}
            && u.exposure == Exposure(s.exposure.outBuy - 1, s.exposure.outSell, s.exposure.pending - {id}))
  {
    ProfitAtMark(s.pnl);
    var u := Risk.Book(s, id, 1, l.minValidPrice, true);
    assert u.pnl == PnlFill(s.pnl, Buy, 1, s.pnl.mark as I32);
    assert TotalPnl(u.pnl) == 0;
  }

  /** One unit short of the limit, two buys go out before either fills. */
  lemma LastTwo(l: Limits, s: State, k: nat, clock: int) returns (es: seq<Event>)
    requires !Confined(l) && Calm(l, s, k, clock) && k + 1 == l.maxPosition
    requires s.open == map[] && s.exposure == Exposure(0, 0, map[])
    ensures Overshoots(l, s, clock, es)
  {
    var a, b := k, k + 1;
    var one := Pending(Buy, 1, l.minValidPrice);
    Places(l, s, k, clock, a);
    var s1 := Step(l, s, Tick(s));
    var s2 := Step(l, s1, BuyOne(l, clock, a));
    assert s2.exposure == Exposure(1, 0, map[a := one]);
    var clock2 := clock + WINDOW;
    Places(l, s2, k, clock2, b);
    var s3 := Step(l, s2, Tick(s2));
    var s4 := Step(l, s3, BuyOne(l, clock2, b));
    var clock4 := clock2 + WINDOW;
    assert s4.exposure == Exposure(2, 0, map[a := one, b := one]);
    Fills(l, s4, k, clock4, a);
    var s5 := Step(l, s4, FillOne(l, a));
    Fills(l, s5, k + 1, clock4, b);
    var s6 := Step(l, s5, FillOne(l, b));
    assert Overshoots(l, s6, clock4, []);
    es := [FillOne(l, b)] + [];
    Prepend(l, s5, clock4, FillOne(l, b), []);
    Prepend(l, s4, clock4, FillOne(l, a), es);
    es := [FillOne(l, a)] + es;
    Prepend(l, s3, clock2, BuyOne(l, clock2, b), es);
    es := [BuyOne(l, clock2, b)] + es;
    Prepend(l, s2, clock2, Tick(s2), es);
    es := [Tick(s2)] + es;
    Prepend(l, s1, clock, BuyOne(l, clock, a), es);
    es := [BuyOne(l, clock, a)] + es;
    Prepend(l, s, clock, Tick(s), es);
    es := [Tick(s)] + es;
  }

  lemma {:induction false} Climbs(l: Limits, s: State, k: nat, clock: int) returns (es: seq<Event>)
    requires !Confined(l) && Calm(l, s, k, clock) && k < l.maxPosition
    requires s.open == map[] && s.exposure == Exposure(0, 0, map[])
    ensures Overshoots(l, s, clock, es)
    decreases l.maxPosition - k
  {
    if k + 1 == l.maxPosition {
      es := LastTwo(l, s, k, clock);
    } else {
      Places(l, s, k, clock, k);
      var s1 := Step(l, s, Tick(s));
      var s2 := Step(l, s1, BuyOne(l, clock, k));
      Fills(l, s2, k, clock + WINDOW, k);
      var s3 := Step(l, s2, FillOne(l, k));
      assert s3.open == map[] && s3.exposure.pending == map[];
      es := Climbs(l, s3, k + 1, clock + WINDOW);
      Prepend(l, s2, clock + WINDOW, FillOne(l, k), es);
      es := [FillOne(l, k)] + es;
      Prepend(l, s1, clock, BuyOne(l, clock, k), es);
      es := [BuyOne(l, clock, k)] + es;
      Prepend(l, s, clock, Tick(s), es);
      es := [Tick(s)] + es;
    }
  }

  /** Unless confined, the engine lets some honest, safe and timely run pass any position limit. */
  lemma OvershootReached(l: Limits, start: int) returns (es: seq<Event>)
    requires !Confined(l)
    ensures Overshoots(l, Initial(start), start, es)
  {
    if l.maxPosition < 0 {
      es := [];
    } else {
      var s := Step(l, Initial(start), MarkPrice(l.minValidPrice));
      es := Climbs(l, s, 0, start);
      Prepend(l, Initial(start), start, MarkPrice(l.minValidPrice), es);
      es := [MarkPrice(l.minValidPrice)] + es;
    }
  }

  ghost predicate WithinPosition(l: Limits, start: int, es: seq<Event>)
  {
    Abs(Run(l, Initial(start), es).position) <= l.maxPosition
  }

  /** The position limit bounds the position on every honest and safe run exactly when the limits are confined;
      otherwise it only triggers the shutdown once passed. */
  lemma PositionLimitBindsIff(l: Limits, start: int)
    requires l.maxPosition < 0x7FFF_FFFF
    ensures
      (forall es :: Honest(l, Initial(start), es) && Safe(l, Initial(start), es) ==> WithinPosition(l, start, es))
      <==> Confined(l)
  {
    if Confined(l) {
      InitialOk(l, start);
      forall es | Honest(l, Initial(start), es) && Safe(l, Initial(start), es)
        ensures WithinPosition(l, start, es)
      {
        RunSteady(l, Initial(start), es);
        OutstandingNonNegative(l, Run(l, Initial(start), es));
      }
    } else {
      var es := OvershootReached(l, start);
      assert !WithinPosition(l, start, es);
    }
  }
}
