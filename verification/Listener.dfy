/** The listener loop as the object that owns the routes and the live buffer. Sockets are replaced by the list of what
    each wait reports. */
module Listeners {
  import opened Market
  import opened Feeds
  import opened CatchUp
  import opened SymbolManagers

  /** One wait: it fails, or it reports zero or more arrivals. */
  datatype Poll = Failed | Ready(arrivals: seq<Arrival>)

  function Arrivals(arrivals: seq<Arrival>): seq<Event>
  {
    if arrivals == [] then [] else Arrivals(arrivals[..|arrivals| - 1]) + [Arrive(arrivals[|arrivals| - 1])]
  }

  function EventsOf(p: Poll): seq<Event>
  {
    if p.Failed? then [Fail] else if p.arrivals == [] then [Silent] else Arrivals(p.arrivals)
  }

  function AllEvents(polls: seq<Poll>): seq<Event>
  {
    if polls == [] then [] else AllEvents(polls[..|polls| - 1]) + EventsOf(polls[|polls| - 1])
  }

  class Listener {
    const sm: SymbolManager
    var orderToSymbol: Routes
    var liveBuffer: seq<Packet>
    var caughtUp: bool
    var receivedSnapshot: bool
    var noReplayCount: nat
    var stopped: bool

    ghost predicate Valid()
      reads this, sm, sm.Repr
    {
      sm.Valid() && this !in sm.Repr
    }

    ghost function View(): Feed
      reads this, sm
    {
      Feed(sm.Table, orderToSymbol)
    }

    ghost function State(): CatchUp.Listener
      reads this, sm
    {
      CatchUp.Listener(View(), liveBuffer, caughtUp, receivedSnapshot, noReplayCount, stopped)
    }

    constructor ()
      ensures Valid() && State() == INITIAL && fresh(sm) && fresh(sm.Repr)
    {
      sm := new SymbolManager();
      orderToSymbol, liveBuffer, noReplayCount := map[], [], 0;
      caughtUp, receivedSnapshot, stopped := false, false, false;
    }

    method Dispatch(m: BookMsg)
      requires Valid()
      modifies this`orderToSymbol, sm.Repr
      ensures Valid() && View() == Feeds.Dispatch(old(View()), m)
    {
      match m {
        case New(n) =>
          sm.OnMessage(n.symbol, m);
          orderToSymbol := orderToSymbol[n.id := n.symbol];
        case Delete(d) =>
          if d.id in orderToSymbol {
            sm.OnMessage(orderToSymbol[d.id], m);
            orderToSymbol := orderToSymbol - {d.id};
          }
        case Modify(c) =>
          if c.id in orderToSymbol {
            sm.OnMessage(orderToSymbol[c.id], m);
          }
        case Executed(t) =>
          if t.id in orderToSymbol {
            sm.OnMessage(orderToSymbol[t.id], m);
          }
      }
    }

    /** Removes the mappings of one symbol, visiting them in any order. */
    method DropStaleRoutes(symbol: Symbol)
      modifies this`orderToSymbol
      ensures orderToSymbol == DropRoutes(old(orderToSymbol), symbol)
    {
      var left := orderToSymbol.Keys;
      while left != {}
        invariant left <= orderToSymbol.Keys <= old(orderToSymbol).Keys
        invariant forall id | id in orderToSymbol :: orderToSymbol[id] == old(orderToSymbol)[id]
        invariant forall id | id in old(orderToSymbol) && id !in left ::
          id in orderToSymbol <==> old(orderToSymbol)[id] != symbol
        invariant forall id | id in left :: id in orderToSymbol
        decreases left
      {
        var id :| id in left;
        left := left - {id};
        if orderToSymbol[id] == symbol {
          orderToSymbol := orderToSymbol - {id};
        }
      }
      assert orderToSymbol.Keys == DropRoutes(old(orderToSymbol), symbol).Keys;
    }

    method ClearSymbol(symbol: Symbol)
      requires Valid()
      modifies this`orderToSymbol, sm.Repr
      ensures Valid() && View() == BeginBlock(old(View()), symbol)
    {
      sm.ResetBook(symbol);
      DropStaleRoutes(symbol);
    }

    /** The orders of a block, from `at` on; returns where they end. */
    method LoadOrders(records: seq<Record>, at: nat, total: nat) returns (next: nat)
      requires Valid() && at <= |records|
      modifies this`orderToSymbol, sm.Repr
      ensures Valid()
      ensures next == at + Leading(records[at..], total) <= |records|
      ensures View() == ActAll(old(View()), Loads(records[at..next]))
    {
      LeadingRecords(records, at, total);
      ghost var n := Leading(records[at..], total);
      ghost var begun, block := View(), records[at..at + n];
      next := at;
      var j := 0;
      while j < total && next < |records| && records[next].Listed?
        invariant Valid() && 0 <= j <= n && next == at + j
        invariant Loaded(View(), block, j) == Loaded(begun, block, 0)
      {
        LoadStep(View(), block, j);
        Dispatch(New(records[next].order));
        next := next + 1;
        j := j + 1;
      }
      LoadEnds(begun, View(), block);
    }

    /** One snapshot block, from its header at `at`; returns where the next one would start. */
    method LoadBlock(records: seq<Record>, at: nat) returns (next: nat)
      requires Valid() && at < |records| && records[at].Info?
      modifies this`orderToSymbol, sm.Repr
      ensures Valid()
      ensures next == at + 1 + BlockSize(records[at..]) <= |records|
      ensures View() == ActAll(BeginBlock(old(View()), records[at].symbol), Loads(records[at + 1..next]))
    {
      var info := records[at];
      assert records[at..][1..] == records[at + 1..];
      ClearSymbol(info.symbol);
      next := LoadOrders(records, at + 1, WrapU32(info.bidCount + info.askCount));
    }

    /** The block at `at`, and the note that there was one. */
    method ReadBlock(records: seq<Record>, at: nat) returns (next: nat)
      requires Valid() && at < |records| && records[at].Info?
      modifies this`orderToSymbol, this`receivedSnapshot, this`noReplayCount, sm.Repr
      ensures Valid() && at < next <= |records|
      ensures Remaining(View(), records, next) == Remaining(old(View()), records, at)
      ensures State() == Walked(old(State()), View(), true)
    {
      ghost var before := View();
      next := LoadBlock(records, at);
      BlockStep(before, View(), records, at, next);
      receivedSnapshot := true;
      noReplayCount := 0;
    }

    method WalkSnapshot(records: seq<Record>)
      requires Valid()
      modifies this`orderToSymbol, this`receivedSnapshot, this`noReplayCount, sm.Repr
      ensures Valid()
      ensures State() == Process(old(State()), Packet.Snapshot(records))
    {
      var offset := 0;
      while offset < |records| && records[offset].Info?
        invariant Valid() && offset <= |records| && (offset > 0 ==> HasBlock(Packet.Snapshot(records)))
        invariant Remaining(View(), records, offset) == Remaining(old(View()), records, 0)
        invariant State() == Walked(old(State()), View(), offset > 0)
      {
        offset := ReadBlock(records, offset);
      }
      WalkEnds(old(State()), View(), records, offset);
    }

    /** Drain what was held back, in order of arrival. */
    method Drain()
      requires Valid()
      modifies this`orderToSymbol, this`liveBuffer, sm.Repr
      ensures Valid() && liveBuffer == []
      ensures View() == DispatchAll(old(View()), MessagesOf(old(liveBuffer)))
    {
      ghost var held, k := liveBuffer, 0;
      assert held[..0] == [];
      while liveBuffer != []
        invariant Valid() && k <= |held| && liveBuffer == held[k..]
        invariant View() == DispatchAll(old(View()), MessagesOf(held[..k]))
      {
        var p := liveBuffer[0];
        DrainStep(old(View()), held, k);
        if p.Book? {
          Dispatch(p.msg);
        }
        liveBuffer := liveBuffer[1..];
        k := k + 1;
      }
      assert held[..k] == held;
    }

    method Receive(a: Arrival)
      requires Valid() && !stopped
      modifies this, sm.Repr
      ensures Valid() && State() == HandleArrival(old(State()), a)
    {
      if a.Nothing? {
        return;
      }
      if !caughtUp && a.Live? {
        if |liveBuffer| > MAX_BUFFERED {
          stopped := true;
          return;
        }
        liveBuffer := liveBuffer + [a.packet];
        return;
      }
      match a.packet {
        case Snapshot(records) =>
          WalkSnapshot(records);
        case Book(m) =>
          SingleMessage(View(), m);
          Dispatch(m);
          noReplayCount := 0;
        case Quiet =>
          noReplayCount := 0;
        case Foreign =>
      }
    }

    /** Waiting brought nothing: count it, and switch to the live feed when the replay has been quiet long enough. */
    method Silence()
      requires Valid()
      modifies this, sm.Repr
      ensures Valid() && State() == HandleSilence(old(State()))
    {
      if !caughtUp && receivedSnapshot {
        noReplayCount := noReplayCount + 1;
        if noReplayCount > QUIET_POLLS {
          caughtUp := true;
          Drain();
        }
      }
    }

    /** The whole loop over what the waits report. */
    method RunListener(polls: seq<Poll>)
      requires Valid()
      modifies this, sm.Repr
      ensures Valid() && State() == Run(old(State()), AllEvents(polls))
    {
      var n := 0;
      assert AllEvents(polls[..0]) == [];
      while n < |polls|
        invariant Valid() && n <= |polls|
        invariant State() == Run(old(State()), AllEvents(polls[..n]))
      {
        PollStep(old(State()), polls, n);
        HandlePoll(polls[n]);
        n := n + 1;
      }
      assert polls[..n] == polls;
    }

    /** What one wait brings. */
    method HandlePoll(p: Poll)
      requires Valid()
      modifies this, sm.Repr
      ensures Valid() && State() == Run(old(State()), EventsOf(p))
    {
      if stopped {
        StoppedStays(State(), EventsOf(p));
      } else if p.Failed? {
        RunSingle(State(), Fail);
        stopped := true;
      } else if p.arrivals == [] {
        RunSingle(State(), Silent);
        Silence();
      } else {
        ReceiveAll(p.arrivals);
      }
    }

    method ReceiveAll(arrivals: seq<Arrival>)
      requires Valid()
      modifies this, sm.Repr
      ensures Valid() && State() == Run(old(State()), Arrivals(arrivals))
    {
      var i := 0;
      assert Arrivals(arrivals[..0]) == [];
      while i < |arrivals|
        invariant Valid() && i <= |arrivals|
        invariant State() == Run(old(State()), Arrivals(arrivals[..i]))
      {
        ArrivalStep(old(State()), arrivals, i);
        if !stopped {
          Receive(arrivals[i]);
        }
        i := i + 1;
      }
      assert arrivals[..i] == arrivals;
    }
  }

  lemma RunSingle(l: CatchUp.Listener, e: Event)
    ensures Run(l, [e]) == Handle(l, e)
  {
    assert [e][..0] == [];
    assert Run(l, [e]) == Handle(Run(l, []), e);
  }

  lemma PollStep(l: CatchUp.Listener, polls: seq<Poll>, n: nat)
    requires n < |polls|
    ensures Run(l, AllEvents(polls[..n + 1])) == Run(Run(l, AllEvents(polls[..n])), EventsOf(polls[n]))
  {
    assert polls[..n + 1][..n] == polls[..n];
    RunAppend(l, AllEvents(polls[..n]), EventsOf(polls[n]));
  }

  lemma ArrivalStep(l: CatchUp.Listener, arrivals: seq<Arrival>, i: nat)
    requires i < |arrivals|
    ensures Run(l, Arrivals(arrivals[..i + 1])) == Handle(Run(l, Arrivals(arrivals[..i])), Arrive(arrivals[i]))
  {
    assert arrivals[..i + 1][..i] == arrivals[..i];
    RunAppend(l, Arrivals(arrivals[..i]), [Arrive(arrivals[i])]);
    RunSingle(Run(l, Arrivals(arrivals[..i])), Arrive(arrivals[i]));
  }

  lemma BlockActs(f: Feed, records: seq<Record>)
    requires records != [] && records[0].Info?
    ensures
      var n := BlockSize(records);
      ActAll(f, Blocks(records))
        == ActAll(ActAll(BeginBlock(f, records[0].symbol), Loads(records[1..1 + n])), Blocks(records[1 + n..]))
  {
    var n := BlockSize(records);
    var begin, loads, rest := [Begin(records[0].symbol)], Loads(records[1..1 + n]), Blocks(records[1 + n..]);
    ActAllAppend(f, begin + loads, rest);
    ActAllAppend(f, begin, loads);
    assert begin[1..] == [];
    assert ActAll(f, begin) == BeginBlock(f, records[0].symbol);
  }

  /** Having loaded the block at `at`, what remains to be walked starts at `next`. */
  lemma BlockStep(f: Feed, f': Feed, records: seq<Record>, at: nat, next: nat)
    requires at < |records| && records[at].Info? && next == at + 1 + BlockSize(records[at..]) <= |records|
    requires f' == ActAll(BeginBlock(f, records[at].symbol), Loads(records[at + 1..next]))
    ensures Remaining(f', records, next) == Remaining(f, records, at)
  {
    var rest := records[at..];
    var n := BlockSize(rest);
    BlockActs(f, rest);
    assert rest[1..1 + n] == records[at + 1..next];
    assert rest[1 + n..] == records[next..];
  }

  lemma LeadingRecords(records: seq<Record>, at: nat, count: nat)
    requires at <= |records|
    ensures
      var n := Leading(records[at..], count);
      && at + n <= |records| && n <= count
      && (forall i | at <= i < at + n :: records[i].Listed?)
      && (at + n < |records| && n < count ==> !records[at + n].Listed?)
  {
    forall i | at <= i < at + Leading(records[at..], count)
      ensures records[i].Listed?
    {
      assert records[i] == records[at..][i - at];
    }
  }

  /** What reading a snapshot leaves besides the feed: the notes of whether there was a block. */
  ghost function Walked(l: CatchUp.Listener, feed: Feed, any: bool): CatchUp.Listener
  {
    l.(feed := feed, receivedSnapshot := l.receivedSnapshot || any, noReplay := if any then 0 else l.noReplay)
  }

  lemma WalkEnds(l: CatchUp.Listener, feed: Feed, records: seq<Record>, offset: nat)
    requires offset <= |records| && (offset > 0 ==> HasBlock(Packet.Snapshot(records)))
    requires offset == |records| || !records[offset].Info?
    requires Remaining(feed, records, offset) == Remaining(l.feed, records, 0)
    ensures Walked(l, feed, offset > 0) == Process(l, Packet.Snapshot(records))
  {
    assert Blocks(records[offset..]) == [] && records[0..] == records;
  }

  /** What the rest of a block makes of a feed. */
  ghost function Loaded(f: Feed, block: seq<Record>, j: nat): Feed
    requires j <= |block| && forall i | 0 <= i < |block| :: block[i].Listed?
  {
    ActAll(f, Loads(block[j..]))
  }

  lemma LoadEnds(begun: Feed, f: Feed, block: seq<Record>)
    requires forall i | 0 <= i < |block| :: block[i].Listed?
    requires Loaded(f, block, |block|) == Loaded(begun, block, 0)
    ensures f == ActAll(begun, Loads(block))
  {
    assert block[|block|..] == [] && block[0..] == block;
  }

  /** What the rest of a snapshot makes of a feed. */
  ghost function Remaining(f: Feed, records: seq<Record>, at: nat): Feed
    requires at <= |records|
  {
    ActAll(f, Blocks(records[at..]))
  }

  lemma LoadStep(f: Feed, block: seq<Record>, j: nat)
    requires j < |block| && forall i | 0 <= i < |block| :: block[i].Listed?
    ensures Loaded(f, block, j) == Loaded(Feeds.Dispatch(f, New(block[j].order)), block, j + 1)
  {
    assert block[j..][1..] == block[j + 1..];
    var first, rest := Deliver(New(block[j].order)), Loads(block[j + 1..]);
    assert Loads(block[j..]) == [first] + rest;
    assert ([first] + rest)[1..] == rest;
  }

  lemma SingleMessage(f: Feed, m: BookMsg)
    ensures Effect(f, Book(m)) == Feeds.Dispatch(f, m)
  {
    var actions := ActionsOf(Book(m));
    assert actions[0] == Deliver(m) && actions[1..] == [];
    assert ActAll(Act(f, Deliver(m)), []) == Act(f, Deliver(m));
  }

  lemma DrainStep(f: Feed, held: seq<Packet>, k: nat)
    requires k < |held|
    ensures
      var before := DispatchAll(f, MessagesOf(held[..k]));
      DispatchAll(f, MessagesOf(held[..k + 1]))
        == if held[k].Book? then Feeds.Dispatch(before, held[k].msg) else before
  {
    var ms := MessagesOf(held[..k]);
    assert held[..k + 1][..k] == held[..k];
    if held[k].Book? {
      assert (ms + [held[k].msg])[..|ms|] == ms;
    } else {
      assert ms + [] == ms;
    }
  }

  lemma {:induction false} StoppedStays(l: CatchUp.Listener, es: seq<Event>)
    requires l.stopped
    ensures Run(l, es) == l
  {
    if es != [] {
      StoppedStays(l, es[..|es| - 1]);
    }
  }
}
