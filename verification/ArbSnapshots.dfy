/** The arbitrage view of the market: ten dorm symbols, the fund made of one of each, and sizes that stay inside
    limits. */
module ArbSnapshots {
  import opened Market
  import opened Slots
  import opened Sums

  const DORM_COUNT: nat := 10
  const UNDY: Symbol := 13
  const POSITION_LIMIT: int := 9

  /** The dorm symbols are 3 to 12, in order. */
  function Dorm(i: nat): Symbol
    requires i < DORM_COUNT
  {
    3 + i
  }

  datatype DormData = DormData(bidPrice: int, askPrice: int, bidQty: U32, askQty: U32, position: int)

  datatype ArbSnapshot = ArbSnapshot(
    dorms: seq<DormData>,
    undyBidPrice: int, undyAskPrice: int, undyBidQty: U32, undyAskQty: U32, undyPosition: int,
    navAsk: int, navBid: int, askMissing: bool, bidMissing: bool)

  function SumAsks(dorms: seq<DormData>): int
  {
    if dorms == [] then 0 else SumAsks(dorms[..|dorms| - 1]) + dorms[|dorms| - 1].askPrice
  }

  function SumBids(dorms: seq<DormData>): int
  {
    if dorms == [] then 0 else SumBids(dorms[..|dorms| - 1]) + dorms[|dorms| - 1].bidPrice
  }

  function AskColumn(dorms: seq<DormData>): map<int, int>
  {
    map i | 0 <= i < |dorms| :: dorms[i].askPrice
  }

  function BidColumn(dorms: seq<DormData>): map<int, int>
  {
    map i | 0 <= i < |dorms| :: dorms[i].bidPrice
  }

  /** Both are sums over the legs, each leg once. */
  lemma {:induction false} SumsAreTotals(dorms: seq<DormData>)
    ensures SumAsks(dorms) == Total(AskColumn(dorms)) && SumBids(dorms) == Total(BidColumn(dorms))
  {
    if dorms != [] {
      var n := |dorms| - 1;
      SumsAreTotals(dorms[..n]);
      ColumnsSnoc(dorms);
      TotalSplit(AskColumn(dorms), n);
      TotalSplit(BidColumn(dorms), n);
    }
  }

  lemma ColumnsSnoc(dorms: seq<DormData>)
    requires dorms != []
    ensures
      var n := |dorms| - 1;
      AskColumn(dorms) - {n} == AskColumn(dorms[..n]) && BidColumn(dorms) - {n} == BidColumn(dorms[..n])
  {
  }

  /** One dorm's published values and position. */
  predicate Reads(d: DormData, slot: Slot, position: int)
  {
    d == DormData(slot.top.bidPrice, slot.top.askPrice, slot.top.bidQty, slot.top.askQty, position)
  }

  /** The snapshot shows the published values: every leg, both sums, and whether a leg has no price. */
  predicate Shows(snap: ArbSnapshot, table: Table, position: seq<int>)
    requires |position| == 14
  {
    && |snap.dorms| == DORM_COUNT
    && (forall i | 0 <= i < DORM_COUNT :: Reads(snap.dorms[i], table[Dorm(i)], position[Dorm(i)]))
    && snap.undyBidPrice == table[UNDY].top.bidPrice && snap.undyBidQty == table[UNDY].top.bidQty
    && snap.undyAskPrice == table[UNDY].top.askPrice && snap.undyAskQty == table[UNDY].top.askQty
    && snap.undyPosition == position[UNDY]
    && snap.navAsk == SumAsks(snap.dorms) && snap.navBid == SumBids(snap.dorms)
    && (snap.askMissing <==> exists i | 0 <= i < DORM_COUNT :: snap.dorms[i].askPrice == 0)
    && (snap.bidMissing <==> exists i | 0 <= i < DORM_COUNT :: snap.dorms[i].bidPrice == 0)
  }

  // ---- sizing

  /** `q` baskets can be bought at the asks and sold as funds at the bid without passing a limit. */
  predicate CreationFits(snap: ArbSnapshot, q: int)
    requires |snap.dorms| == DORM_COUNT
  {
    && q <= WrapI32(snap.undyBidQty)
    && q <= POSITION_LIMIT + snap.undyPosition
    && forall i | 0 <= i < DORM_COUNT ::
         q <= WrapI32(snap.dorms[i].askQty) && q <= POSITION_LIMIT - snap.dorms[i].position
  }

  /** `q` funds can be bought at the ask and sold as baskets at the bids without passing a limit. */
  predicate RedemptionFits(snap: ArbSnapshot, q: int)
    requires |snap.dorms| == DORM_COUNT
  {
    && q <= WrapI32(snap.undyAskQty)
    && q <= POSITION_LIMIT - snap.undyPosition
    && forall i | 0 <= i < DORM_COUNT ::
         q <= WrapI32(snap.dorms[i].bidQty) && q <= POSITION_LIMIT + snap.dorms[i].position
  }

  /** The tightest of `start` and what each dorm leaves room for. */
  function CreationRoom(start: int, dorms: seq<DormData>): int
  {
    if dorms == [] then start
    else
      var d := dorms[|dorms| - 1];
      Min(Min(CreationRoom(start, dorms[..|dorms| - 1]), WrapI32(d.askQty)), POSITION_LIMIT - d.position)
  }

  function RedemptionRoom(start: int, dorms: seq<DormData>): int
  {
    if dorms == [] then start
    else
      var d := dorms[|dorms| - 1];
      Min(Min(RedemptionRoom(start, dorms[..|dorms| - 1]), WrapI32(d.bidQty)), POSITION_LIMIT + d.position)
  }

  function CreationSize(snap: ArbSnapshot): int
  {
    Min(CreationRoom(WrapI32(snap.undyBidQty), snap.dorms), POSITION_LIMIT + snap.undyPosition)
  }

  function RedemptionSize(snap: ArbSnapshot): int
  {
    RedemptionRoom(Min(WrapI32(snap.undyAskQty), POSITION_LIMIT - snap.undyPosition), snap.dorms)
  }

  lemma {:induction false} CreationRoomIsMin(start: int, dorms: seq<DormData>, q: int)
    ensures
      q <= CreationRoom(start, dorms) <==>
      q <= start && forall i | 0 <= i < |dorms| ::
        q <= WrapI32(dorms[i].askQty) && q <= POSITION_LIMIT - dorms[i].position
  {
    if dorms != [] {
      CreationRoomIsMin(start, dorms[..|dorms| - 1], q);
      assert forall i | 0 <= i < |dorms| - 1 :: dorms[i] == dorms[..|dorms| - 1][i];
    }
  }

  lemma {:induction false} RedemptionRoomIsMin(start: int, dorms: seq<DormData>, q: int)
    ensures
      q <= RedemptionRoom(start, dorms) <==>
      q <= start && forall i | 0 <= i < |dorms| ::
        q <= WrapI32(dorms[i].bidQty) && q <= POSITION_LIMIT + dorms[i].position
  {
    if dorms != [] {
      RedemptionRoomIsMin(start, dorms[..|dorms| - 1], q);
      assert forall i | 0 <= i < |dorms| - 1 :: dorms[i] == dorms[..|dorms| - 1][i];
    }
  }

  /** The sizes are the largest that fit: a quantity fits exactly when it is no larger. */
  lemma SizesAreLargest(snap: ArbSnapshot, q: int)
    requires |snap.dorms| == DORM_COUNT
    ensures CreationFits(snap, q) <==> q <= CreationSize(snap)
    ensures RedemptionFits(snap, q) <==> q <= RedemptionSize(snap)
  {
    CreationRoomIsMin(WrapI32(snap.undyBidQty), snap.dorms, q);
    RedemptionRoomIsMin(Min(WrapI32(snap.undyAskQty), POSITION_LIMIT - snap.undyPosition), snap.dorms, q);
  }

  method CreationQty(snap: ArbSnapshot) returns (qty: int)
    requires |snap.dorms| == DORM_COUNT
    ensures qty == CreationSize(snap)
  {
    qty := WrapI32(snap.undyBidQty);
    assert snap.dorms[..0] == [];
    for i := 0 to DORM_COUNT
      invariant qty == CreationRoom(WrapI32(snap.undyBidQty), snap.dorms[..i])
    {
      assert snap.dorms[..i + 1][..i] == snap.dorms[..i];
      qty := Min(qty, WrapI32(snap.dorms[i].askQty));
      qty := Min(qty, POSITION_LIMIT - snap.dorms[i].position);
    }
    assert snap.dorms[..DORM_COUNT] == snap.dorms;
    qty := Min(qty, POSITION_LIMIT + snap.undyPosition);
  }

  method RedemptionQty(snap: ArbSnapshot) returns (qty: int)
    requires |snap.dorms| == DORM_COUNT
    ensures qty == RedemptionSize(snap)
  {
    qty := WrapI32(snap.undyAskQty);
    qty := Min(qty, POSITION_LIMIT - snap.undyPosition);
    ghost var start := qty;
    assert snap.dorms[..0] == [];
    for i := 0 to DORM_COUNT
      invariant qty == RedemptionRoom(start, snap.dorms[..i])
    {
      assert snap.dorms[..i + 1][..i] == snap.dorms[..i];
      qty := Min(qty, WrapI32(snap.dorms[i].bidQty));
      qty := Min(qty, POSITION_LIMIT + snap.dorms[i].position);
    }
    assert snap.dorms[..DORM_COUNT] == snap.dorms;
  }

  // ---- what the sizes do and do not bound

  /** A market in which only position limits bind: prices and quantities leave room for anything. */
  function Roomy(undyPosition: int, dormPosition: int): ArbSnapshot
  {
    var d := DormData(1, 1, 100, 100, dormPosition);
    ArbSnapshot([d, d, d, d, d, d, d, d, d, d], 1, 1, 100, 100, undyPosition, 10, 10, false, false)
  }

  /** A created fund is held before it is sold. Its size respects the limit on the way, whatever the market, exactly
      when we were not already long the fund: the size is bounded for the sale, not for the holding. */
  lemma CreationPeakIff(undy: int)
    requires -POSITION_LIMIT <= undy <= POSITION_LIMIT
    ensures
      (forall snap: ArbSnapshot, q: int ::
         |snap.dorms| == DORM_COUNT && snap.undyPosition == undy && CreationFits(snap, q)
         ==> undy + q <= POSITION_LIMIT)
      <==> undy <= 0
  {
    if undy > 0 {
      var snap := Roomy(undy, 0);
      assert CreationFits(snap, POSITION_LIMIT);
    }
  }

  /** Redeemed dorms are held before they are sold: the same holds for each dorm. */
  lemma RedemptionPeakIff(dorm: int)
    requires -POSITION_LIMIT <= dorm <= POSITION_LIMIT
    ensures
      (forall snap: ArbSnapshot, q: int ::
         |snap.dorms| == DORM_COUNT && (exists i | 0 <= i < DORM_COUNT :: snap.dorms[i].position == dorm)
         && RedemptionFits(snap, q)
         ==> dorm + q <= POSITION_LIMIT)
      <==> dorm <= 0
  {
    if dorm > 0 {
      var snap := Roomy(0, dorm);
      assert snap.dorms[0].position == dorm;
      assert RedemptionFits(snap, POSITION_LIMIT);
    }
  }
}
