/** Cost-basis accounting of our own fills: position and average entry price per symbol, realized profit in all. */
module Accounting {
  import opened Market

  /** Sequences are indexed by symbol; entry 0 is unused. */
  datatype Account = Account(position: seq<int>, avgEntry: seq<real>, pnl: real)

  predicate Shaped(a: Account)
  {
    |a.position| == 14 && |a.avgEntry| == 14
  }

  function EmptyAccount(): Account
  {
    Account(seq(14, _ => 0), seq(14, _ => 0.0), 0.0)
  }

  datatype Fill = Fill(symbol: Symbol, side: Side, qty: U32, price: int)

  // ---- one fill

  function Moved(held: int, side: Side, qty: U32): I32
  {
    WrapI32(if side == Buy then held + WrapI32(qty) else held - WrapI32(qty))
  }

  /** A buy re-averages; `price * qty` is a 32-bit unsigned product. */
  function Averaged(held: int, avg: real, side: Side, qty: U32, price: int): real
  {
    if side != Buy then avg
    else
      var newQty := held + WrapI32(qty);
      var oldValue := avg * (if held > 0 then held else 0) as real;
      if newQty > 0 then (oldValue + WrapU32(price * qty) as real) / newQty as real else price as real
  }

  /** Profit is booked only when the position shrinks, against the average `avg` that stands after this fill. */
  function Booked(held: int, avg: real, side: Side, qty: U32, price: int): real
  {
    var closing := Min(qty, Abs(held));
    if side == Sell && held > 0 then (price as real - avg) * closing as real
    else if side == Buy && held < 0 then (avg - price as real) * closing as real
    else 0.0
  }

  function Realized(held: int, avg: real, side: Side, qty: U32, price: int): real
  {
    Booked(held, Averaged(held, avg, side, qty, price), side, qty, price)
  }

  function OnFill(a: Account, f: Fill): (r: Account)
    requires Shaped(a)
    ensures Shaped(r)
  {
    var held, avg := a.position[f.symbol], a.avgEntry[f.symbol];
    Account(a.position[f.symbol := Moved(held, f.side, f.qty)],
            a.avgEntry[f.symbol := Averaged(held, avg, f.side, f.qty, f.price)],
            a.pnl + Realized(held, avg, f.side, f.qty, f.price))
  }

  function OnFills(a: Account, fills: seq<Fill>): (r: Account)
    requires Shaped(a)
    ensures Shaped(r)
    decreases |fills|
  {
    if fills == [] then a else OnFills(OnFill(a, fills[0]), fills[1..])
  }

  // ---- what the books must add up to

  /** Money in (positive) or out. */
  function Cash(f: Fill): real
  {
    if f.side == Buy then -(f.price as real * f.qty as real) else f.price as real * f.qty as real
  }

  function TotalCash(fills: seq<Fill>): real
  {
    if fills == [] then 0.0 else Cash(fills[0]) + TotalCash(fills[1..])
  }

  /** The held positions at their average entry prices. */
  function Basis(position: seq<int>, avgEntry: seq<real>): real
    requires |position| == |avgEntry|
  {
    if position == [] then 0.0
    else
      var n := |position| - 1;
      Basis(position[..n], avgEntry[..n]) + position[n] as real * avgEntry[n]
  }

  function BasisOf(a: Account): real
    requires Shaped(a)
  {
    Basis(a.position, a.avgEntry)
  }

  lemma BasisLast(position: seq<int>, avgEntry: seq<real>)
    requires |position| == |avgEntry| > 0
    ensures
      var n := |position| - 1;
      Basis(position, avgEntry) == Basis(position[..n], avgEntry[..n]) + position[n] as real * avgEntry[n]
  {
  }

  lemma {:induction false} BasisUpdate(position: seq<int>, avgEntry: seq<real>, i: nat, p: int, v: real)
    requires i < |position| == |avgEntry|
    ensures Basis(position[i := p], avgEntry[i := v])
         == Basis(position, avgEntry) - position[i] as real * avgEntry[i] + p as real * v
  {
    var n := |position| - 1;
    BasisLast(position, avgEntry);
    BasisLast(position[i := p], avgEntry[i := v]);
    if i == n {
      assert position[i := p][..n] == position[..n] && avgEntry[i := v][..n] == avgEntry[..n];
    } else {
      assert position[i := p][..n] == position[..n][i := p] && avgEntry[i := v][..n] == avgEntry[..n][i := v];
      assert position[i := p][n] == position[n] && avgEntry[i := v][n] == avgEntry[n];
      BasisUpdate(position[..n], avgEntry[..n], i, p, v);
    }
  }

  /** The fill stays inside 32 bits: its product, its quantity and the position it leads to. */
  predicate InRange(held: int, f: Fill)
  {
    && (f.side == Buy || f.side == Sell)
    && 0 <= f.price * f.qty < TWO_32
    && f.qty < TWO_31
    && -TWO_31 <= held - f.qty && held + f.qty < TWO_31
  }

  /** The balance of the books, with the effects of the fill given by name. */
  predicate Even(realized: real, cash: real, moved: real, v: real, held: real, avg: real)
  {
    realized == cash + moved * v - held * avg
  }

  /** What a fill must not change: realized profit less cash less the basis of what is held. */
  predicate Balances(held: int, avg: real, f: Fill)
  {
    Even(Realized(held, avg, f.side, f.qty, f.price), Cash(f),
         Moved(held, f.side, f.qty) as real, Averaged(held, avg, f.side, f.qty, f.price), held as real, avg)
  }

  /** The position is long or flat before and after. */
  predicate LongOnly(held: int, f: Fill)
  {
    0 <= held && (f.side == Sell ==> f.qty <= held)
  }

  /** The cases outside long-only where the sums happen to come out anyway. */
  predicate Coincides(held: int, avg: real, f: Fill)
  {
    var price := f.price as real;
    if f.side == Sell then price == avg || (held < 0 && f.qty == 0)
    else
      && held < 0
      && if held + f.qty <= 0 then price == avg else avg * (held + f.qty) as real == price * (-held) as real
  }

  lemma MovedInRange(held: int, f: Fill)
    requires InRange(held, f)
    ensures WrapI32(f.qty) == f.qty
    ensures Moved(held, f.side, f.qty) == if f.side == Buy then held + f.qty else held - f.qty
  {
    WrapI32Keeps(f.qty);
    WrapI32Keeps(held + f.qty);
    WrapI32Keeps(held - f.qty);
  }

  lemma {:induction false} ProductAsReal(a: int, b: nat)
    ensures (a * b) as real == a as real * b as real
    decreases b
  {
    if b != 0 {
      ProductAsReal(a, b - 1);
      assert a * b == a * (b - 1) + a;
      assert a as real * b as real == a as real * (b - 1) as real + a as real;
    }
  }

  // the algebra, in real numbers alone

  lemma ZeroProduct(x: real, y: real)
    ensures x * y == 0.0 <==> x == 0.0 || y == 0.0
  {
    if x != 0.0 && y != 0.0 {
      assert x * y / y == x;
    }
  }

  /** Selling `q` from `h` while profit is booked on `c` of them. */
  lemma SellAlgebra(p: real, q: real, h: real, avg: real, c: real)
    ensures Even((p - avg) * c, p * q, h - q, avg, h, avg) <==> p == avg || c == q
  {
    assert p * q + (h - q) * avg - h * avg == (p - avg) * q;
    assert (p - avg) * c - (p - avg) * q == (p - avg) * (c - q);
    ZeroProduct(p - avg, c - q);
  }

  /** Buying into a long or flat position: the average times the new quantity is what was paid in all. */
  lemma AverageAlgebra(value: real, n: real)
    requires n > 0.0
    ensures n * (value / n) == value
  {
  }

  /** Buying `q` at `p` against a short of `-h` and ending long by `n`. */
  lemma FlipAlgebra(p: real, q: real, h: real, avg: real, n: real, v: real)
    requires h < 0.0 && n > 0.0 && n == h + q && n * v == p * q
    ensures (v - p) * -h == -(p * q) + n * v - h * avg <==> avg * n == p * -h
  {
    assert (v - p) * -h + h * avg == (v - p - avg) * -h;
    ZeroProduct(v - p - avg, -h);
    assert (v - p - avg) * n == n * v - p * n - avg * n;
    assert p * n == p * h + p * q;
    ZeroProduct(v - p - avg, n);
  }

  /** Buying `q` at `p` against a short that stays short or ends flat; the average becomes `p`. */
  lemma CoverAlgebra(p: real, q: real, h: real, avg: real)
    requires h != 0.0
    ensures 0.0 == -(p * q) + (h + q) * p - h * avg <==> p == avg
  {
    assert -(p * q) + (h + q) * p - h * avg == h * (p - avg);
    ZeroProduct(h, p - avg);
  }

  // what one fill does, in real numbers

  lemma SellEffect(held: int, avg: real, f: Fill)
    requires InRange(held, f) && f.side == Sell
    ensures Moved(held, f.side, f.qty) as real == held as real - f.qty as real
    ensures Averaged(held, avg, f.side, f.qty, f.price) == avg
    ensures
      var closing := if held > 0 then Min(f.qty, held) else 0;
      Realized(held, avg, f.side, f.qty, f.price) == (f.price as real - avg) * closing as real
  {
    MovedInRange(held, f);
  }

  lemma BuyAverage(held: int, avg: real, f: Fill)
    requires InRange(held, f) && f.side == Buy
    ensures
      var v := Averaged(held, avg, f.side, f.qty, f.price);
      if held + f.qty > 0 then
        (held + f.qty) as real * v
          == f.price as real * f.qty as real + avg * (if held > 0 then held else 0) as real
      else v == f.price as real
  {
    MovedInRange(held, f);
    WrapU32Keeps(f.price * f.qty);
    ProductAsReal(f.price, f.qty);
    if held + f.qty > 0 {
      AverageAlgebra(avg * (if held > 0 then held else 0) as real + f.price as real * f.qty as real,
                     (held + f.qty) as real);
    }
  }

  lemma BuyEffect(held: int, avg: real, f: Fill)
    requires InRange(held, f) && f.side == Buy
    ensures Moved(held, f.side, f.qty) as real == held as real + f.qty as real
    ensures
      var v := Averaged(held, avg, f.side, f.qty, f.price);
      Realized(held, avg, f.side, f.qty, f.price)
        == if held < 0 then (v - f.price as real) * Min(f.qty, -held) as real else 0.0
  {
    MovedInRange(held, f);
  }

  lemma SellBalancesIff(held: int, avg: real, f: Fill)
    requires InRange(held, f) && f.side == Sell
    ensures Balances(held, avg, f) <==> LongOnly(held, f) || Coincides(held, avg, f)
  {
    var closing := if held > 0 then Min(f.qty, held) else 0;
    SellBalances(held, avg, f, closing);
    SellCases(held, avg, f, closing);
  }

  lemma SellBalances(held: int, avg: real, f: Fill, closing: int)
    requires InRange(held, f) && f.side == Sell && closing == if held > 0 then Min(f.qty, held) else 0
    ensures Balances(held, avg, f) <==> f.price as real == avg || closing as real == f.qty as real
  {
    var p, q, h, c := f.price as real, f.qty as real, held as real, closing as real;
    SellEffect(held, avg, f);
    assert Cash(f) == p * q;
    assert Realized(held, avg, f.side, f.qty, f.price) == (p - avg) * c;
    assert Balances(held, avg, f) == Even((p - avg) * c, p * q, h - q, avg, h, avg);
    SellAlgebra(p, q, h, avg, c);
  }

  lemma SellCases(held: int, avg: real, f: Fill, closing: int)
    requires f.side == Sell && closing == if held > 0 then Min(f.qty, held) else 0
    ensures
      f.price as real == avg || closing as real == f.qty as real <==> LongOnly(held, f) || Coincides(held, avg, f)
  {
    assert closing as real == f.qty as real <==> closing == f.qty;
  }

  lemma BuyLongAlgebra(p: real, q: real, h: real, avg: real, v: real)
    requires (h + q) * v == p * q + avg * h
    ensures Even(0.0, -(p * q), h + q, v, h, avg)
  {
  }

  lemma BuyLongBalances(held: int, avg: real, f: Fill)
    requires InRange(held, f) && f.side == Buy && held >= 0
    ensures Balances(held, avg, f)
  {
    var p, q, h := f.price as real, f.qty as real, held as real;
    var v := Averaged(held, avg, f.side, f.qty, f.price);
    BuyEffect(held, avg, f);
    assert (h + q) * v == p * q + avg * h by {
      BuyAverage(held, avg, f);
      assert (held + f.qty) as real == h + q;
      if held + f.qty == 0 {
        assert h == 0.0 && q == 0.0;
      }
    }
    BuyLongAlgebra(p, q, h, avg, v);
  }

  lemma BuyFlipPaid(held: int, avg: real, f: Fill)
    requires InRange(held, f) && f.side == Buy && held < 0 < held + f.qty
    ensures
      (held + f.qty) as real * Averaged(held, avg, f.side, f.qty, f.price) == f.price as real * f.qty as real
  {
    BuyAverage(held, avg, f);
    assert avg * 0.0 == 0.0;
  }

  lemma BuyFlipBalancesIff(held: int, avg: real, f: Fill)
    requires InRange(held, f) && f.side == Buy && held < 0 < held + f.qty
    ensures Balances(held, avg, f) <==> Coincides(held, avg, f)
  {
    var p, q, h, n := f.price as real, f.qty as real, held as real, (held + f.qty) as real;
    var v := Averaged(held, avg, f.side, f.qty, f.price);
    BuyEffect(held, avg, f);
    BuyFlipPaid(held, avg, f);
    assert Min(f.qty, -held) as real == -h;
    assert Balances(held, avg, f) == Even((v - p) * -h, -(p * q), n, v, h, avg);
    FlipAlgebra(p, q, h, avg, n, v);
    assert (-held) as real == -h;
  }

  lemma BuyCoverBalancesIff(held: int, avg: real, f: Fill)
    requires InRange(held, f) && f.side == Buy && held < 0 && held + f.qty <= 0
    ensures Balances(held, avg, f) <==> Coincides(held, avg, f)
  {
    var p, q, h := f.price as real, f.qty as real, held as real;
    var v := Averaged(held, avg, f.side, f.qty, f.price);
    BuyEffect(held, avg, f);
    BuyAverage(held, avg, f);
    assert (v - p) * Min(f.qty, -held) as real == 0.0;
    CoverAlgebra(p, q, h, avg);
  }

  /** Within 32 bits, a fill keeps profit = cash + basis exactly when it is long-only, bar numerical coincidences. */
  lemma BalancesIff(held: int, avg: real, f: Fill)
    requires InRange(held, f)
    ensures Balances(held, avg, f) <==> LongOnly(held, f) || Coincides(held, avg, f)
  {
    if f.side == Sell {
      SellBalancesIff(held, avg, f);
    } else if held < 0 {
      if held + f.qty > 0 {
        BuyFlipBalancesIff(held, avg, f);
      } else {
        BuyCoverBalancesIff(held, avg, f);
      }
    } else {
      BuyLongBalances(held, avg, f);
    }
  }

  predicate LongOnlyRun(a: Account, fills: seq<Fill>)
    requires Shaped(a)
    decreases |fills|
  {
    fills != [] ==>
      var held := a.position[fills[0].symbol];
      InRange(held, fills[0]) && LongOnly(held, fills[0]) && LongOnlyRun(OnFill(a, fills[0]), fills[1..])
  }

  lemma UpdateBalances(a: Account, s: Symbol, p: int, v: real, realized: real, cash: real)
    requires Shaped(a)
    requires Even(realized, cash, p as real, v, a.position[s] as real, a.avgEntry[s])
    ensures realized == cash + Basis(a.position[s := p], a.avgEntry[s := v]) - BasisOf(a)
  {
    BasisUpdate(a.position, a.avgEntry, s, p, v);
  }

  lemma OnFillBalances(a: Account, f: Fill)
    requires Shaped(a) && Balances(a.position[f.symbol], a.avgEntry[f.symbol], f)
    ensures OnFill(a, f).pnl - a.pnl == Cash(f) + BasisOf(OnFill(a, f)) - BasisOf(a)
  {
    var held, avg := a.position[f.symbol], a.avgEntry[f.symbol];
    var p, v := Moved(held, f.side, f.qty), Averaged(held, avg, f.side, f.qty, f.price);
    var realized := Realized(held, avg, f.side, f.qty, f.price);
    assert OnFill(a, f) == Account(a.position[f.symbol := p], a.avgEntry[f.symbol := v], a.pnl + realized);
    UpdateBalances(a, f.symbol, p, v, realized, Cash(f));
  }

  /** Over any run of long-only fills, in any mix of symbols, realized profit moves by the net cash flow plus the
      change in the basis of what is held. */
  lemma {:induction false} LongOnlyProfit(a: Account, fills: seq<Fill>)
    requires Shaped(a) && LongOnlyRun(a, fills)
    ensures OnFills(a, fills).pnl == a.pnl + TotalCash(fills) + BasisOf(OnFills(a, fills)) - BasisOf(a)
    decreases |fills|
  {
    if fills != [] {
      var f := fills[0];
      BalancesIff(a.position[f.symbol], a.avgEntry[f.symbol], f);
      OnFillBalances(a, f);
      LongOnlyProfit(OnFill(a, f), fills[1..]);
    }
  }

  lemma {:induction false} BasisOfNothing(position: seq<int>, avgEntry: seq<real>)
    requires |position| == |avgEntry| && forall i | 0 <= i < |position| :: position[i] == 0
    ensures Basis(position, avgEntry) == 0.0
  {
    if position != [] {
      BasisOfNothing(position[..|position| - 1], avgEntry[..|position| - 1]);
    }
  }

  /** From nothing and back to nothing, realized profit is exactly the cash made. */
  lemma RoundTripProfit(fills: seq<Fill>)
    requires LongOnlyRun(EmptyAccount(), fills)
    requires forall i | 0 <= i < 14 :: OnFills(EmptyAccount(), fills).position[i] == 0
    ensures OnFills(EmptyAccount(), fills).pnl == TotalCash(fills)
  {
    LongOnlyProfit(EmptyAccount(), fills);
    BasisOfNothing(EmptyAccount().position, EmptyAccount().avgEntry);
    var a := OnFills(EmptyAccount(), fills);
    BasisOfNothing(a.position, a.avgEntry);
  }

  /** Nothing is short, and nothing is held at a negative average. */
  predicate Sound(a: Account)
    requires Shaped(a)
  {
    forall i | 0 <= i < 14 :: 0 <= a.position[i] && (a.position[i] > 0 ==> 0.0 <= a.avgEntry[i])
  }

  lemma AverageNonNegative(held: int, avg: real, f: Fill)
    requires InRange(held, f) && LongOnly(held, f) && (held > 0 ==> 0.0 <= avg)
    ensures 0 <= Moved(held, f.side, f.qty)
    ensures Moved(held, f.side, f.qty) > 0 ==> 0.0 <= Averaged(held, avg, f.side, f.qty, f.price)
  {
    MovedInRange(held, f);
    if f.side == Buy && held + f.qty > 0 {
      if held > 0 {
        NonNegativeProduct(avg, held as real);
      }
      assert avg * 0.0 == 0.0;
      NonNegativeQuotient(avg * (if held > 0 then held else 0) as real + WrapU32(f.price * f.qty) as real,
                          (held + f.qty) as real);
    }
  }

  lemma NonNegativeProduct(x: real, y: real)
    requires 0.0 <= x && 0.0 <= y
    ensures 0.0 <= x * y
  {
  }

  lemma NonNegativeQuotient(x: real, y: real)
    requires 0.0 <= x && 0.0 < y
    ensures 0.0 <= x / y
  {
  }

  lemma {:induction false} LongOnlySound(a: Account, fills: seq<Fill>)
    requires Shaped(a) && Sound(a) && LongOnlyRun(a, fills)
    ensures Sound(OnFills(a, fills))
    decreases |fills|
  {
    if fills != [] {
      var f := fills[0];
      AverageNonNegative(a.position[f.symbol], a.avgEntry[f.symbol], f);
      LongOnlySound(OnFill(a, f), fills[1..]);
    }
  }

  /** A sum of non-negative values is zero exactly when each of them is. */
  lemma {:induction false} BasisZeroIff(position: seq<int>, avgEntry: seq<real>)
    requires |position| == |avgEntry|
    requires forall i | 0 <= i < |position| :: 0 <= position[i] && (position[i] > 0 ==> 0.0 <= avgEntry[i])
    ensures 0.0 <= Basis(position, avgEntry)
    ensures
      Basis(position, avgEntry) == 0.0 <==> forall i | 0 <= i < |position| :: position[i] == 0 || avgEntry[i] == 0.0
  {
    if position != [] {
      var n := |position| - 1;
      BasisZeroIff(position[..n], avgEntry[..n]);
      LastTerm(position[n] as real, avgEntry[n]);
      assert forall i | 0 <= i < n :: position[..n][i] == position[i] && avgEntry[..n][i] == avgEntry[i];
    }
  }

  lemma LastTerm(p: real, v: real)
    requires 0.0 <= p && (p > 0.0 ==> 0.0 <= v)
    ensures 0.0 <= p * v && (p * v == 0.0 <==> p == 0.0 || v == 0.0)
  {
    ZeroProduct(p, v);
  }

  /** Over any long-only run from nothing, realized profit is the cash made exactly when nothing of value is held:
      every position is closed or was acquired for nothing. */
  lemma ProfitIsCashIff(fills: seq<Fill>)
    requires LongOnlyRun(EmptyAccount(), fills)
    ensures
      var a := OnFills(EmptyAccount(), fills);
      a.pnl == TotalCash(fills) <==> forall i | 0 <= i < 14 :: a.position[i] == 0 || a.avgEntry[i] == 0.0
  {
    LongOnlyProfit(EmptyAccount(), fills);
    BasisOfNothing(EmptyAccount().position, EmptyAccount().avgEntry);
    LongOnlySound(EmptyAccount(), fills);
    var a := OnFills(EmptyAccount(), fills);
    BasisZeroIff(a.position, a.avgEntry);
  }

  /** The product of price and quantity is a 32-bit one: a purchase of 2^16 at 2^16 into a flat position is carried at
      an average of 0. */
  lemma ProductWraps(s: Symbol)
    ensures
      var a := OnFill(EmptyAccount(), Fill(s, Buy, 0x1_0000, 0x1_0000));
      a.position[s] == 0x1_0000 && a.avgEntry[s] == 0.0
  {
    assert WrapU32(0x1_0000 * 0x1_0000) == 0;
    assert WrapI32(0x1_0000) == 0x1_0000;
  }

  lemma TwoFills(a: Account, x: Fill, y: Fill)
    requires Shaped(a)
    ensures OnFills(a, [x, y]) == OnFill(OnFill(a, x), y) && TotalCash([x, y]) == Cash(x) + Cash(y)
  {
    assert [x, y][1..] == [y] && [y][1..] == [];
    assert OnFills(OnFill(a, x), [y]) == OnFills(OnFill(OnFill(a, x), y), []);
    assert TotalCash([y]) == Cash(y) + TotalCash([]);
  }

  lemma FirstFill(s: Symbol)
    ensures
      var b := OnFill(EmptyAccount(), Fill(s, Buy, 3, 105));
      b.position[s] == 3 && b.avgEntry[s] == 105.0 && b.pnl == 0.0
  {
    var buy := Fill(s, Buy, 3, 105);
    MovedInRange(0, buy);
    BuyAverage(0, 0.0, buy);
    BuyEffect(0, 0.0, buy);
  }

  /** Realized profit is not the cash flow while something is held: buying 3 at 105 and selling 1 at 106 leaves 2 held
      at 105, a profit of 1 and a cash flow of -209. */
  lemma ProfitIsNotCash(s: Symbol)
    ensures
      var fills := [Fill(s, Buy, 3, 105), Fill(s, Sell, 1, 106)];
      OnFills(EmptyAccount(), fills).pnl == 1.0 && TotalCash(fills) == -209.0
  {
    var buy, sell := Fill(s, Buy, 3, 105), Fill(s, Sell, 1, 106);
    TwoFills(EmptyAccount(), buy, sell);
    FirstFill(s);
    SellEffect(3, 105.0, sell);
  }
}
