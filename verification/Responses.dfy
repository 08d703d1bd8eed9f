/** Two loops that read one stream of exchange responses, and what they leave behind however the stream is shared. */
module Responses {
  import opened Market

  const UNKNOWN_ORDER_ID: nat := 4   // reject reason
  const CLOSED: nat := 2             // fill flag

  datatype Response =
    | Ack(id: OrderId)
    | Reject(id: OrderId, reason: nat)
    | Fill(id: OrderId, qty: U32, price: I32, flags: nat)
    | Close(id: OrderId)
    | OtherResponse

  datatype Callback =
    | Filled(id: OrderId, qty: U32, price: I32, closed: bool)
    | Rejected(id: OrderId)
    | Closed(id: OrderId)

  /** Which callbacks have been installed. */
  datatype Handlers = Handlers(onFill: bool, onReject: bool, onClose: bool)

  /** Orders believed live, and every callback fired so far. */
  datatype Client = Client(live: set<OrderId>, history: seq<Callback>)

  // ---- one response

  predicate Closes(r: Response, id: OrderId)
  {
    (r == Close(id)) || (r.Fill? && r.id == id && r.flags == CLOSED)
  }

  function Fires(h: Handlers, r: Response): seq<Callback>
  {
    match r
    case Fill(id, qty, price, flags) => if h.onFill then [Filled(id, qty, price, flags == CLOSED)] else []
    case Reject(id, _) => if h.onReject then [Rejected(id)] else []
    case Close(id) => if h.onClose then [Closed(id)] else []
    case _ => []
  }

  function Absorb(h: Handlers, c: Client, r: Response): Client
  {
    Client(match r
           case Ack(id) => c.live + {id}
           case Close(id) => c.live - {id}
           case Fill(id, _, _, flags) => if flags == CLOSED then c.live - {id} else c.live
           case _ => c.live,
           c.history + Fires(h, r))
  }

  /** The plain sequential reading of a list of responses. */
  function AbsorbAll(h: Handlers, c: Client, rs: seq<Response>): Client
    decreases |rs|
  {
    if rs == [] then c else AbsorbAll(h, Absorb(h, c, rs[0]), rs[1..])
  }

  lemma {:induction false} AbsorbAppend(h: Handlers, c: Client, a: seq<Response>, b: seq<Response>)
    ensures AbsorbAll(h, c, a + b) == AbsorbAll(h, AbsorbAll(h, c, a), b)
    decreases |a|
  {
    if a == [] {
      assert a + b == b;
    } else {
      assert (a + b)[0] == a[0] && (a + b)[1..] == a[1..] + b;
      AbsorbAppend(h, Absorb(h, c, a[0]), a[1..], b);
    }
  }

  // ---- when a loop returns

  datatype Outcome = Continue | Return(ok: bool)

  /** Waiting for a response returns on any close and any closing fill, whichever order they name. */
  function ResponseOutcome(expected: OrderId, r: Response): Outcome
  {
    match r
    case Ack(id) => if id == expected then Return(true) else Continue
    case Reject(id, reason) => if id == expected then Return(reason == UNKNOWN_ORDER_ID) else Continue
    case Fill(_, _, _, flags) => if flags == CLOSED then Return(true) else Continue
    case Close(_) => Return(true)
    case OtherResponse => Continue
  }

  /** Waiting for a fill looks only at the expected order. */
  function FillOutcome(expected: OrderId, r: Response): Outcome
  {
    match r
    case Fill(id, _, _, flags) => if id == expected && flags == CLOSED then Return(true) else Continue
    case Reject(id, _) => if id == expected then Return(false) else Continue
    case Close(id) => if id == expected then Return(false) else Continue
    case _ => Continue
  }

  /** A call that waits. The response loop looks at the clock once, before the first read; the fill loop before each,
      and finds its time used up after `budget` of them. */
  datatype Wait = ForResponse(expected: OrderId, expired: bool) | ForFill(expected: OrderId, budget: nat)

  function OutcomeOf(w: Wait, r: Response): Outcome
  {
    if w.ForResponse? then ResponseOutcome(w.expected, r) else FillOutcome(w.expected, r)
  }

  /** How many responses the call reads, and what it returns. The end of the stream is a broken connection. */
  function Reads(w: Wait, stream: seq<Response>): (nat, bool)
    decreases |stream|
  {
    if stream == [] || (w.ForResponse? && w.expired) || (w.ForFill? && w.budget == 0) then (0, false)
    else
      match OutcomeOf(w, stream[0])
      case Return(ok) => (1, ok)
      case Continue =>
        var (n, ok) := Reads(if w.ForFill? then w.(budget := w.budget - 1) else w, stream[1..]);
        (n + 1, ok)
  }

  lemma {:induction false} ReadsWithin(w: Wait, stream: seq<Response>)
    ensures Reads(w, stream).0 <= |stream|
    decreases |stream|
  {
    if stream != [] {
      ReadsWithin(if w.ForFill? && w.budget > 0 then w.(budget := w.budget - 1) else w, stream[1..]);
    }
  }

  /** The response and the result: only the last response read can end the call. */
  lemma {:induction false} ReadsStopAtFirst(w: Wait, stream: seq<Response>)
    ensures
      var (n, ok) := Reads(w, stream);
      && n <= |stream|
      && (forall i | 0 <= i < n - 1 :: OutcomeOf(w, stream[i]).Continue?)
      && (ok ==> n > 0 && OutcomeOf(w, stream[n - 1]) == Return(true))
      && (n > 0 && OutcomeOf(w, stream[n - 1]).Return? ==> OutcomeOf(w, stream[n - 1]) == Return(ok))
      && (w.ForResponse? && !w.expired && (n == 0 || OutcomeOf(w, stream[n - 1]).Continue?) ==> n == |stream|)
    decreases |stream|
  {
    if stream != [] && !(w.ForResponse? && w.expired) && !(w.ForFill? && w.budget == 0) {
      if OutcomeOf(w, stream[0]).Continue? {
        var w' := if w.ForFill? then w.(budget := w.budget - 1) else w;
        ReadsStopAtFirst(w', stream[1..]);
        var n := Reads(w', stream[1..]).0;
        forall i | 0 <= i < n
          ensures OutcomeOf(w, stream[i]).Continue? || i == n
        {
          assert i > 0 ==> stream[i] == stream[1..][i - 1];
        }
      }
    }
  }

  // ---- what the answers are, on the responses alone

  /** The wait for a response ends with an answer to its own order, or with the end of any order. */
  predicate EndsWait(expected: OrderId, r: Response)
  {
    r == Ack(expected) || (r.Reject? && r.id == expected) || (r.Fill? && r.flags == 2) || r.Close?
  }

  /** Where the first such response is; past the end if there is none. */
  function FirstEnd(expected: OrderId, rs: seq<Response>): (k: nat)
    ensures k <= |rs| && (k < |rs| ==> EndsWait(expected, rs[k]))
    ensures forall j | 0 <= j < k :: !EndsWait(expected, rs[j])
  {
    if rs == [] || EndsWait(expected, rs[0]) then 0 else 1 + FirstEnd(expected, rs[1..])
  }

  /** The wait reads up to that response and no further, and succeeds exactly when there is one, other than a reject for
      any reason but 4, that the order is unknown. Begun too late, it reads nothing and fails. */
  lemma {:induction false} AnsweredIff(expected: OrderId, rs: seq<Response>)
    ensures
      var (n, ok) := Reads(ForResponse(expected, false), rs);
      var k := FirstEnd(expected, rs);
      if k == |rs| then n == |rs| && !ok
      else n == k + 1 && (ok <==> !(rs[k].Reject? && rs[k].reason != 4))
    ensures Reads(ForResponse(expected, true), rs) == (0, false)
    decreases |rs|
  {
    if rs != [] && !EndsWait(expected, rs[0]) {
      AnsweredIff(expected, rs[1..]);
    }
  }

  // ---- many calls on one stream

  datatype Connection = Connection(client: Client, stream: seq<Response>)

  function Call(h: Handlers, k: Connection, w: Wait): Connection
  {
    ReadsWithin(w, k.stream);
    var n := Reads(w, k.stream).0;
    Connection(AbsorbAll(h, k.client, k.stream[..n]), k.stream[n..])
  }

  function Calls(h: Handlers, k: Connection, ws: seq<Wait>): Connection
    decreases |ws|
  {
    if ws == [] then k else Calls(h, Call(h, k, ws[0]), ws[1..])
  }

  /** `now` is what is left of `before` after its first `n` responses have been read once, in order. */
  predicate Midway(h: Handlers, before: Connection, now: Connection, n: nat)
  {
    && n <= |before.stream|
    && now == Connection(AbsorbAll(h, before.client, before.stream[..n]), before.stream[n..])
  }

  lemma Start(h: Handlers, k: Connection)
    ensures Midway(h, k, k, 0)
  {
    assert k.stream[..0] == [] && k.stream[0..] == k.stream;
  }

  lemma MidwayStep(h: Handlers, before: Connection, here: Connection, n: nat)
    requires Midway(h, before, here, n) && here.stream != []
    ensures Midway(h, before, Connection(Absorb(h, here.client, here.stream[0]), here.stream[1..]), n + 1)
  {
    var r := here.stream[0];
    assert before.stream[..n + 1] == before.stream[..n] + [r];
    AbsorbAppend(h, before.client, before.stream[..n], [r]);
    assert [r][1..] == [];
    assert AbsorbAll(h, here.client, [r]) == AbsorbAll(h, Absorb(h, here.client, r), []);
  }

  lemma MidwayCall(h: Handlers, before: Connection, here: Connection, n: nat, w: Wait) returns (m: nat)
    requires Midway(h, before, here, n)
    ensures n <= m && Midway(h, before, Call(h, here, w), m)
  {
    ReadsWithin(w, here.stream);
    var count := Reads(w, here.stream).0;
    m := n + count;
    assert before.stream[..m] == before.stream[..n] + here.stream[..count];
    assert before.stream[m..] == here.stream[count..];
    AbsorbAppend(h, before.client, before.stream[..n], here.stream[..count]);
  }

  lemma {:induction false} CallsMidway(h: Handlers, before: Connection, here: Connection, n: nat, ws: seq<Wait>)
    returns (m: nat)
    requires Midway(h, before, here, n)
    ensures Midway(h, before, Calls(h, here, ws), m)
    decreases |ws|
  {
    if ws == [] {
      m := n;
    } else {
      m := MidwayCall(h, before, here, n, ws[0]);
      m := CallsMidway(h, before, Call(h, here, ws[0]), m, ws[1..]);
    }
  }

  /** Whatever calls are made, together they consume a prefix of the stream, and leave exactly what reading that
      prefix once leaves: nothing lost, duplicated or reordered. */
  lemma CallsConsumePrefix(h: Handlers, k: Connection, ws: seq<Wait>) returns (n: nat)
    ensures n <= |k.stream|
    ensures Calls(h, k, ws) == Connection(AbsorbAll(h, k.client, k.stream[..n]), k.stream[n..])
  {
    Start(h, k);
    n := CallsMidway(h, k, k, 0, ws);
  }

  /** So two ways of splitting the reading that leave equally much unread agree on everything. */
  lemma SplitDoesNotMatter(h: Handlers, k: Connection, ws: seq<Wait>, vs: seq<Wait>)
    requires |Calls(h, k, ws).stream| == |Calls(h, k, vs).stream|
    ensures Calls(h, k, ws) == Calls(h, k, vs)
  {
    var n := CallsConsumePrefix(h, k, ws);
    var m := CallsConsumePrefix(h, k, vs);
    assert |k.stream[n..]| == |k.stream| - n && |k.stream[m..]| == |k.stream| - m;
  }

  /** The callbacks fired are those of the responses read, in their order. */
  function AllFired(h: Handlers, rs: seq<Response>): seq<Callback>
  {
    if rs == [] then [] else Fires(h, rs[0]) + AllFired(h, rs[1..])
  }

  lemma {:induction false} HistoryIsFired(h: Handlers, c: Client, rs: seq<Response>)
    ensures AbsorbAll(h, c, rs).history == c.history + AllFired(h, rs)
    decreases |rs|
  {
    if rs != [] {
      HistoryIsFired(h, Absorb(h, c, rs[0]), rs[1..]);
      assert c.history + (Fires(h, rs[0]) + AllFired(h, rs[1..])) == c.history + Fires(h, rs[0]) + AllFired(h, rs[1..]);
    }
  }

  lemma {:induction false} AllFiredAppend(h: Handlers, a: seq<Response>, b: seq<Response>)
    ensures AllFired(h, a + b) == AllFired(h, a) + AllFired(h, b)
    decreases |a|
  {
    if a == [] {
      assert a + b == b;
    } else {
      assert (a + b)[0] == a[0] && (a + b)[1..] == a[1..] + b;
      AllFiredAppend(h, a[1..], b);
      assert Fires(h, a[0]) + (AllFired(h, a[1..]) + AllFired(h, b))
          == Fires(h, a[0]) + AllFired(h, a[1..]) + AllFired(h, b);
    }
  }

  /** Between what the earlier and the later responses fire, a response fires one callback of its own kind with its own
      contents, if one is installed. An acknowledgement fires none. */
  lemma CallbackAt(h: Handlers, rs: seq<Response>, k: nat)
    requires k < |rs|
    ensures
      var own :=
        match rs[k]
        case Fill(id, qty, price, flags) => if h.onFill then [Filled(id, qty, price, flags == 2)] else []
        case Reject(id, _) => if h.onReject then [Rejected(id)] else []
        case Close(id) => if h.onClose then [Closed(id)] else []
        case Ack(_) => []
        case OtherResponse => [];
      AllFired(h, rs) == AllFired(h, rs[..k]) + own + AllFired(h, rs[k + 1..])
  {
    assert rs == rs[..k] + rs[k..];
    AllFiredAppend(h, rs[..k], rs[k..]);
    assert rs[k..][1..] == rs[k + 1..];
    var here, later := Fires(h, rs[k]), AllFired(h, rs[k + 1..]);
    assert AllFired(h, rs[k..]) == here + later;
    assert AllFired(h, rs[..k]) + (here + later) == AllFired(h, rs[..k]) + here + later;
  }

  // ---- which orders are live

  ghost predicate ClosedFrom(rs: seq<Response>, id: OrderId, from: nat)
  {
    exists j | from <= j < |rs| :: Closes(rs[j], id)
  }

  /** Acknowledged, and not closed since. */
  ghost predicate AckedLast(rs: seq<Response>, id: OrderId)
  {
    exists i | 0 <= i < |rs| :: rs[i] == Ack(id) && !ClosedFrom(rs, id, i + 1)
  }

  /** From any start: live means acknowledged and not closed since, or live before and never closed. */
  lemma {:induction false} LiveIff(h: Handlers, c: Client, rs: seq<Response>, id: OrderId)
    ensures
      id in AbsorbAll(h, c, rs).live <==> AckedLast(rs, id) || (id in c.live && !ClosedFrom(rs, id, 0))
    decreases |rs|
  {
    if rs == [] {
    } else {
      var r, rest := rs[0], rs[1..];
      LiveIff(h, Absorb(h, c, r), rest, id);
      ClosedFromTail(rs, id);
      AckedLastTail(rs, id);
    }
  }

  lemma ClosedFromTail(rs: seq<Response>, id: OrderId)
    requires rs != []
    ensures ClosedFrom(rs, id, 1) <==> ClosedFrom(rs[1..], id, 0)
    ensures ClosedFrom(rs, id, 0) <==> Closes(rs[0], id) || ClosedFrom(rs[1..], id, 0)
  {
    if j :| 0 <= j < |rs[1..]| && Closes(rs[1..][j], id) {
      assert Closes(rs[j + 1], id);
    }
    if j :| 1 <= j < |rs| && Closes(rs[j], id) {
      assert Closes(rs[1..][j - 1], id);
    }
  }

  lemma ClosedFromShift(rs: seq<Response>, id: OrderId, from: nat)
    requires 0 < from <= |rs|
    ensures ClosedFrom(rs, id, from) <==> ClosedFrom(rs[1..], id, from - 1)
  {
    if j :| from - 1 <= j < |rs[1..]| && Closes(rs[1..][j], id) {
      assert Closes(rs[j + 1], id);
    }
    if j :| from <= j < |rs| && Closes(rs[j], id) {
      assert Closes(rs[1..][j - 1], id);
    }
  }

  lemma AckedLastTail(rs: seq<Response>, id: OrderId)
    requires rs != []
    ensures AckedLast(rs, id) <==> (rs[0] == Ack(id) && !ClosedFrom(rs, id, 1)) || AckedLast(rs[1..], id)
  {
    if i :| 0 <= i < |rs[1..]| && rs[1..][i] == Ack(id) && !ClosedFrom(rs[1..], id, i + 1) {
      ClosedFromShift(rs, id, i + 2);
      assert rs[i + 1] == Ack(id) && !ClosedFrom(rs, id, i + 1 + 1);
    }
    if i :| 0 < i < |rs| && rs[i] == Ack(id) && !ClosedFrom(rs, id, i + 1) {
      ClosedFromShift(rs, id, i + 1);
      assert rs[1..][i - 1] == Ack(id) && !ClosedFrom(rs[1..], id, i - 1 + 1);
    }
  }

  ghost predicate Acked(rs: seq<Response>, id: OrderId)
  {
    Ack(id) in rs
  }

  /** An acknowledgement that comes after a close of its order is itself followed by one. */
  ghost predicate NoRevival(rs: seq<Response>, id: OrderId)
  {
    forall i | 0 <= i < |rs| && rs[i] == Ack(id) :: ClosedFrom(rs[..i], id, 0) ==> ClosedFrom(rs, id, i + 1)
  }

  lemma ClosedInPrefix(rs: seq<Response>, id: OrderId, n: nat)
    requires n <= |rs|
    ensures ClosedFrom(rs[..n], id, 0) ==> ClosedFrom(rs, id, 0)
  {
    if j :| 0 <= j < |rs[..n]| && Closes(rs[..n][j], id) {
      assert Closes(rs[j], id);
    }
  }

  /** Live is exactly "acknowledged but not closed", order by order, exactly when no order is revived for good. */
  lemma LiveIsAckedNotClosedIff(h: Handlers, rs: seq<Response>, id: OrderId)
    ensures
      (id in AbsorbAll(h, Client({}, []), rs).live <==> Acked(rs, id) && !ClosedFrom(rs, id, 0))
      <==> NoRevival(rs, id)
  {
    LiveIff(h, Client({}, []), rs, id);
    if ClosedFrom(rs, id, 0) {
      if i :| 0 <= i < |rs| && rs[i] == Ack(id) && !ClosedFrom(rs, id, i + 1) {
        var j :| 0 <= j < |rs| && Closes(rs[j], id);
        assert j < i && Closes(rs[..i][j], id);
      }
      if !NoRevival(rs, id) {
        var i :| 0 <= i < |rs| && rs[i] == Ack(id) && ClosedFrom(rs[..i], id, 0) && !ClosedFrom(rs, id, i + 1);
        assert AckedLast(rs, id);
      }
    } else {
      forall i | 0 <= i < |rs|
        ensures !ClosedFrom(rs[..i], id, 0) && !ClosedFrom(rs, id, i + 1)
      {
        ClosedInPrefix(rs, id, i);
      }
      if Ack(id) in rs {
        var i :| 0 <= i < |rs| && rs[i] == Ack(id);
        assert AckedLast(rs, id);
      }
    }
  }
}
