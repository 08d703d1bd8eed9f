/** The redemption trade on one stream of responses. Its two waits share the stream, so a fill that the first one reads
    is not there for the second. */
module ArbStreams {
  import opened Market
  import opened Sums
  import opened Accounting
  import opened ArbSnapshots
  import opened Arb
  import R = Responses

  /** The fills among the responses, in order. */
  function FillsOf(rs: seq<R.Response>): seq<FillEvent>
  {
    if rs == [] then []
    else
      var r := rs[0];
      (if r.Fill? then [FillEvent(r.id, r.qty, r.price, r.flags == R.CLOSED)] else []) + FillsOf(rs[1..])
  }

  /** They are the fill callbacks, when one is installed: what the waits report is what the client books. */
  function FillCallbacks(history: seq<R.Callback>): seq<FillEvent>
  {
    if history == [] then []
    else
      var c := history[0];
      (if c.Filled? then [FillEvent(c.id, c.qty, c.price, c.closed)] else []) + FillCallbacks(history[1..])
  }

  lemma {:induction false} FillsAreCallbacks(h: R.Handlers, rs: seq<R.Response>)
    ensures FillCallbacks(R.AllFired(h, rs)) == if h.onFill then FillsOf(rs) else []
    decreases |rs|
  {
    if rs != [] {
      FillsAreCallbacks(h, rs[1..]);
      FillCallbacksMore(R.Fires(h, rs[0]), R.AllFired(h, rs[1..]));
    }
  }

  lemma FillCallbacksMore(here: seq<R.Callback>, later: seq<R.Callback>)
    requires |here| <= 1
    ensures
      FillCallbacks(here + later)
        == (if here != [] && here[0].Filled? then [FillEvent(here[0].id, here[0].qty, here[0].price, here[0].closed)]
            else [])
           + FillCallbacks(later)
  {
    if here == [] {
      assert here + later == later;
    } else {
      assert (here + later)[0] == here[0] && (here + later)[1..] == later;
    }
  }

  /** What the waits for the fund order `id` learn from the stream, and the fills they book on the way. */
  function Answers(id: OrderId, budget: nat, stream: seq<R.Response>, redeemed: bool, marks: seq<int>,
                   whileSelling: seq<FillEvent>): Replies
  {
    R.ReadsWithin(R.ForResponse(id, false), stream);
    var (n, bought) := R.Reads(R.ForResponse(id, false), stream);
    R.ReadsWithin(R.ForFill(id, budget), stream[n..]);
    var (m, filled) := R.Reads(R.ForFill(id, budget), stream[n..]);
    Replies(bought, FillsOf(stream[..n]), filled, FillsOf(stream[n..][..m]), redeemed, marks, whileSelling)
  }

  predicate ClosingFill(r: R.Response, id: OrderId)
  {
    r.Fill? && r.id == id && r.flags == 2
  }

  /** The wait for a fill ends with the end of its own order only. */
  predicate EndsFillWait(id: OrderId, r: R.Response)
  {
    ClosingFill(r, id) || (r.Reject? && r.id == id) || r == R.Close(id)
  }

  /** The first response that ends the wait for a fill is a closing fill, and comes in time. */
  ghost predicate FillFirst(id: OrderId, budget: nat, rs: seq<R.Response>)
  {
    exists k :: 0 <= k < |rs| && k < budget && ClosingFill(rs[k], id)
      && forall j | 0 <= j < k :: !EndsFillWait(id, rs[j])
  }

  lemma FillFirstCons(id: OrderId, budget: nat, rs: seq<R.Response>)
    requires rs != [] && budget > 0 && !EndsFillWait(id, rs[0])
    ensures FillFirst(id, budget, rs) <==> FillFirst(id, budget - 1, rs[1..])
  {
    var rest := rs[1..];
    if FillFirst(id, budget, rs) {
      var k :| 0 <= k < |rs| && k < budget && ClosingFill(rs[k], id)
        && forall j | 0 <= j < k :: !EndsFillWait(id, rs[j]);
      assert k > 0 && ClosingFill(rest[k - 1], id);
      forall j | 0 <= j < k - 1
        ensures !EndsFillWait(id, rest[j])
      {
        assert rest[j] == rs[j + 1];
      }
    }
    if FillFirst(id, budget - 1, rest) {
      var k :| 0 <= k < |rest| && k < budget - 1 && ClosingFill(rest[k], id)
        && forall j | 0 <= j < k :: !EndsFillWait(id, rest[j]);
      assert ClosingFill(rs[k + 1], id);
      forall j | 0 <= j < k + 1
        ensures !EndsFillWait(id, rs[j])
      {
        assert j > 0 ==> rs[j] == rest[j - 1];
      }
    }
  }

  /** The wait for a fill succeeds exactly when the first response that can end it is a closing fill, in time. */
  lemma {:induction false} FilledIff(id: OrderId, budget: nat, rs: seq<R.Response>)
    ensures R.Reads(R.ForFill(id, budget), rs).1 <==> FillFirst(id, budget, rs)
    decreases |rs|
  {
    if rs != [] && budget > 0 {
      if !EndsFillWait(id, rs[0]) {
        FillFirstCons(id, budget, rs);
        FilledIff(id, budget - 1, rs[1..]);
      } else if ClosingFill(rs[0], id) {
        assert FillFirst(id, budget, rs);
      }
    }
  }

  /** The order fills completely, once, by response `k`, and is neither rejected nor closed otherwise. */
  predicate FillsAt(id: OrderId, stream: seq<R.Response>, k: nat)
  {
    && k < |stream| && ClosingFill(stream[k], id)
    && forall j | 0 <= j < |stream| ::
         (j != k ==> !ClosingFill(stream[j], id)) && !(stream[j].Reject? && stream[j].id == id)
         && stream[j] != R.Close(id)
  }

  /** Some response before `k` ends the first wait: the acknowledgement, or the closing of any other order. */
  ghost predicate EndsBefore(id: OrderId, stream: seq<R.Response>, k: nat)
  {
    exists j :: 0 <= j < k && j < |stream| && R.EndsWait(id, stream[j])
  }

  /** An order that has filled is seen to have filled exactly when something ended the first wait before the fill came;
      otherwise the first wait reads the fill, and the second waits for it in vain. */
  lemma SeesFillIff(id: OrderId, budget: nat, stream: seq<R.Response>, k: nat, redeemed: bool, marks: seq<int>,
                    whileSelling: seq<FillEvent>)
    requires FillsAt(id, stream, k) && |stream| <= budget
    ensures
      var r := Answers(id, budget, stream, redeemed, marks, whileSelling);
      r.bought && (r.filled <==> EndsBefore(id, stream, k))
  {
    R.AnsweredIff(id, stream);
    var n := R.Reads(R.ForResponse(id, false), stream).0;
    assert R.EndsWait(id, stream[k]);
    FilledIff(id, budget, stream[n..]);
    if n <= k {
      assert EndsBefore(id, stream, k);
      assert ClosingFill(stream[n..][k - n], id);
      forall j | 0 <= j < k - n
        ensures !EndsFillWait(id, stream[n..][j])
      {
        assert stream[n..][j] == stream[n + j];
      }
      assert FillFirst(id, budget, stream[n..]);
    } else {
      forall j | 0 <= j < |stream[n..]|
        ensures !ClosingFill(stream[n..][j], id)
      {
        assert stream[n..][j] == stream[n + j];
      }
    }
  }

  /** A trade that does not see its fill stops there: the fund is bought, nothing is redeemed or sold, and the way is
      free for the next attempt. */
  lemma UnseenFillHolds(b: Book, snap: ArbSnapshot, r: Replies)
    requires |snap.dorms| == DORM_COUNT == |r.marks| && Attempts(b, snap) && r.bought && !r.filled
    requires FilledUp(b, snap, r)
    requires HasSlack(b.account, RedemptionSize(snap) + ForeignQty(BuySheet(b, snap), BuyFills(r)))
    ensures
      var (after, attempted) := TryRedemption(b, snap, r);
      && attempted && !after.inProgress && after.sent == Buying(b, snap).sent
      && after.account.position[UNDY]
           == b.account.position[UNDY] + RedemptionSize(snap)
              + Foreign(Buying(b, snap), BuySheet(b, snap), BuyFills(r), UNDY)
  {
    DeliverAppend(Buying(b, snap), r.whileSending, r.whileWaiting);
    DeliverKeepsSent(Buying(b, snap), BuyFills(r));
    BuyPositions(b, snap, r, 0);
  }

  lemma OneFill(b: Book, sheet: Sheet, ev: FillEvent, s: Symbol)
    requires Shaped(b.account) && FillFits(sheet, ev)
    ensures WellFilled(sheet, [ev]) && Rest(sheet, [ev]) == AfterFill(sheet, ev)
    ensures ForeignQty(sheet, [ev]) == 0 && Foreign(b, sheet, [ev], s) == 0
  {
    var rest, next := AfterFill(sheet, ev), RouteFill(b, ev);
    assert [ev][0] == ev && [ev][1..] == [];
    assert WellFilled(rest, []) && Rest(rest, []) == rest;
    assert ForeignQty(rest, []) == 0 && Foreign(next, rest, [], s) == 0;
  }

  /** It does happen: when the exchange's first word is the complete fill, every attempt ends holding the fund. */
  lemma ImmediateFillHolds(b: Book, snap: ArbSnapshot, budget: nat, redeemed: bool, marks: seq<int>,
                           whileSelling: seq<FillEvent>)
    requires |snap.dorms| == DORM_COUNT == |marks| && Attempts(b, snap) && HasSlack(b.account, RedemptionSize(snap))
    requires -TWO_31 <= snap.undyAskPrice < TWO_31 && budget > 0
    ensures
      var fill := R.Fill(b.nextId, RedemptionSize(snap) as U32, snap.undyAskPrice as I32, R.CLOSED);
      var r := Answers(b.nextId, budget, [fill], redeemed, marks, whileSelling);
      var (after, attempted) := TryRedemption(b, snap, r);
      && attempted && !after.inProgress && after.sent == Buying(b, snap).sent
      && after.account.position[UNDY] == b.account.position[UNDY] + RedemptionSize(snap)
  {
    var id, qty := b.nextId, RedemptionSize(snap) as U32;
    var fill := R.Fill(id, qty, snap.undyAskPrice as I32, R.CLOSED);
    var r := Answers(id, budget, [fill], redeemed, marks, whileSelling);
    SeesFillIff(id, budget, [fill], 0, redeemed, marks, whileSelling);
    assert R.Reads(R.ForResponse(id, false), [fill]) == (1, true);
    var ev := FillEvent(id, qty, snap.undyAskPrice as I32, true);
    assert [fill][..1] == [fill] && [fill][1..] == [];
    assert FillsOf([fill]) == [ev] + FillsOf([]);
    assert BuyFills(r) == [ev];
    var sheet := BuySheet(b, snap);
    assert AfterFill(sheet, ev) == map[];
    OneFill(Buying(b, snap), sheet, ev, UNDY);
    UnseenFillHolds(b, snap, r);
  }
}
