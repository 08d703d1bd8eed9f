/** Two trackers, one position: what the accepted fills add up to. */
module RiskProfit {
  import opened Market
  import opened Risk

  datatype Accepted = Accepted(side: Side, qty: U32, price: I32)

  function FillOf(s: State, e: Event): seq<Accepted>
  {
    if e.Filled? && e.id in s.open then [Accepted(s.open[e.id].side, e.qty, e.price)] else []
  }

  /** The fills of a run that name an open order. */
  ghost function AcceptedFills(l: Limits, s: State, es: seq<Event>): seq<Accepted>
    decreases |es|
  {
    if es == [] then [] else FillOf(s, es[0]) + AcceptedFills(l, Step(l, s, es[0]), es[1..])
  }

  function Net(fills: seq<Accepted>): int
  {
    if fills == [] then 0 else Signed(fills[0].side, fills[0].qty) + Net(fills[1..])
  }

  /** Each fill valued at the difference between the mark and its own price. */
  function Value(fills: seq<Accepted>, mark: int): int
  {
    if fills == [] then 0
    else Signed(fills[0].side, fills[0].qty) * (mark - fills[0].price) + Value(fills[1..], mark)
  }

  /** Cash paid less cash received. */
  function Spent(fills: seq<Accepted>): int
  {
    if fills == [] then 0 else Signed(fills[0].side, fills[0].qty) * fills[0].price + Spent(fills[1..])
  }

  lemma {:induction false} ValueSplits(fills: seq<Accepted>, mark: int)
    ensures Value(fills, mark) == Net(fills) * mark - Spent(fills)
  {
    if fills != [] {
      ValueSplits(fills[1..], mark);
      var q, n := Signed(fills[0].side, fills[0].qty), Net(fills[1..]);
      assert q * (mark - fills[0].price) == q * mark - q * fills[0].price;
      assert (q + n) * mark == q * mark + n * mark;
    }
  }

  /** The two positions have moved by the fills, and so has the money. */
  predicate MovedBy(s: State, s': State, fills: seq<Accepted>)
  {
    && s'.position == s.position + Net(fills) && s'.pnl.position == s.pnl.position + Net(fills)
    && s'.pnl.buyCost - s'.pnl.sellRevenue == s.pnl.buyCost - s.pnl.sellRevenue + Spent(fills)
  }

  lemma StepBooks(l: Limits, s: State, e: Event)
    ensures MovedBy(s, Step(l, s, e), FillOf(s, e))
  {
    if e.Filled? && e.id in s.open {
      var side := s.open[e.id].side;
      var fill := Accepted(side, e.qty, e.price);
      assert [fill][1..] == [];
      assert Spent([fill]) == Signed(side, e.qty) * e.price;
      SignedProduct(side, e.qty, e.price);
    }
  }

  lemma {:induction false} SumsAppend(a: seq<Accepted>, b: seq<Accepted>)
    ensures Net(a + b) == Net(a) + Net(b) && Spent(a + b) == Spent(a) + Spent(b)
  {
    if a == [] {
      assert a + b == b;
    } else {
      assert (a + b)[0] == a[0] && (a + b)[1..] == a[1..] + b;
      SumsAppend(a[1..], b);
    }
  }

  lemma SignedProduct(side: Side, qty: int, price: int)
    ensures Signed(side, qty) * price == if side == Buy then qty * price else -(qty * price)
  {
  }

  lemma {:induction false} RunBooks(l: Limits, s: State, es: seq<Event>)
    ensures MovedBy(s, Run(l, s, es), AcceptedFills(l, s, es))
    decreases |es|
  {
    if es != [] {
      var next := Step(l, s, es[0]);
      StepBooks(l, s, es[0]);
      RunBooks(l, next, es[1..]);
      SumsAppend(FillOf(s, es[0]), AcceptedFills(l, next, es[1..]));
    }
  }

  /** After any run both trackers hold the signed sum of the accepted fills, and total profit is every such fill
      valued against the current mark. */
  lemma ProfitIsMarkedFills(l: Limits, start: int, es: seq<Event>)
    ensures
      var s, fills := Run(l, Initial(start), es), AcceptedFills(l, Initial(start), es);
      && s.position == s.pnl.position == Net(fills)
      && TotalPnl(s.pnl) == Value(fills, s.pnl.mark)
  {
    RunBooks(l, Initial(start), es);
    var s, fills := Run(l, Initial(start), es), AcceptedFills(l, Initial(start), es);
    ValueSplits(fills, s.pnl.mark);
  }

  /** When flat, the mark does not matter; when not, it does. */
  lemma MarkMattersIff(p: Pnl, mark: int)
    requires mark != p.mark
    ensures TotalPnl(p.(mark := mark)) == TotalPnl(p) <==> p.position == 0
  {
    assert p.position * mark - p.position * p.mark == p.position * (mark - p.mark);
    assert p.position * (mark - p.mark) == 0 <==> p.position == 0;
  }
}
