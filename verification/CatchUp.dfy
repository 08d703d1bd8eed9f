/**
 The listener's catch-up protocol: live packets are held back while the replay feed is read; once the replay has been
 quiet long enough they are read in one go, and from then on every packet is read as it comes.
 */
module CatchUp {
  import opened Market
  import opened Feeds
  import opened Sequences

  const MAX_BUFFERED: nat := 100000
  const QUIET_POLLS: nat := 100

  datatype Arrival = Nothing | Live(packet: Packet) | Replay(packet: Packet)

  /** One wait for input, then one step for each arrival it reports; a wait that reports none is `Silent`. */
  datatype Event = Silent | Arrive(arrival: Arrival) | Fail

  datatype Listener = Listener(
    feed: Feed, buffer: seq<Packet>, caughtUp: bool, receivedSnapshot: bool, noReplay: nat, stopped: bool)

  const INITIAL := Listener(EmptyFeed(), [], false, false, 0, false)

  /** The book messages among packets, in order. */
  function MessagesOf(packets: seq<Packet>): seq<BookMsg>
  {
    if packets == [] then []
    else
      var p := packets[|packets| - 1];
      MessagesOf(packets[..|packets| - 1]) + if p.Book? then [p.msg] else []
  }

  /** The plain sequential dispatch of messages. */
  function DispatchAll(f: Feed, ms: seq<BookMsg>): Feed
  {
    if ms == [] then f else Dispatch(DispatchAll(f, ms[..|ms| - 1]), ms[|ms| - 1])
  }

  /** A packet after which the replay no longer counts as quiet. */
  predicate Resets(p: Packet)
  {
    p.Book? || p.Quiet? || HasBlock(p)
  }

  function Process(l: Listener, p: Packet): Listener
  {
    l.(feed := Effect(l.feed, p),
       receivedSnapshot := l.receivedSnapshot || HasBlock(p),
       noReplay := if Resets(p) then 0 else l.noReplay)
  }

  function HandleArrival(l: Listener, a: Arrival): Listener
  {
    match a
    case Nothing => l
    case Live(p) =>
      if l.caughtUp then Process(l, p)
      else if |l.buffer| > MAX_BUFFERED then l.(stopped := true)
      else l.(buffer := l.buffer + [p])
    case Replay(p) => Process(l, p)
  }

  function HandleSilence(l: Listener): Listener
  {
    if l.caughtUp || !l.receivedSnapshot then l
    else if l.noReplay + 1 > QUIET_POLLS then
      l.(feed := DispatchAll(l.feed, MessagesOf(l.buffer)), buffer := [], caughtUp := true, noReplay := l.noReplay + 1)
    else l.(noReplay := l.noReplay + 1)
  }

  function Handle(l: Listener, e: Event): Listener
  {
    if l.stopped then l
    else
      match e
      case Fail => l.(stopped := true)
      case Silent => HandleSilence(l)
      case Arrive(a) => HandleArrival(l, a)
  }

  function Run(l: Listener, es: seq<Event>): Listener
  {
    if es == [] then l else Handle(Run(l, es[..|es| - 1]), es[|es| - 1])
  }

  lemma {:induction false} RunAppend(l: Listener, a: seq<Event>, b: seq<Event>)
    ensures Run(l, a + b) == Run(Run(l, a), b)
    decreases |b|
  {
    if b == [] {
      assert a + b == a;
    } else {
      var n := |b| - 1;
      assert (a + b)[..|a + b| - 1] == a + b[..n] && (a + b)[|a + b| - 1] == b[n];
      RunAppend(l, a, b[..n]);
    }
  }

  // ---- what the inputs alone say

  /** The replay has shown a snapshot block. */
  function SeenBlock(es: seq<Event>): bool
  {
    es != [] &&
    var e := es[|es| - 1];
    SeenBlock(es[..|es| - 1]) || (e.Arrive? && e.arrival.Replay? && HasBlock(e.arrival.packet))
  }

  /** The replay brings a packet that says something: one of live magic, or a snapshot that asks for anything. */
  predicate Speaks(e: Event)
  {
    e.Arrive? && e.arrival.Replay? &&
    match e.arrival.packet
    case Book(_) => true
    case Quiet => true
    case Snapshot(_) => ActionsOf(e.arrival.packet) != []
    case Foreign => false
  }

  lemma ResetsIffSpeaks(p: Packet)
    ensures Resets(p) <==> Speaks(Arrive(Replay(p)))
  {
  }

  /** How many silent waits have passed since the replay last said anything, once a snapshot has been seen. */
  function SilentRun(es: seq<Event>): nat
  {
    if es == [] then 0
    else
      var before, e := es[..|es| - 1], es[|es| - 1];
      if e.Silent? && SeenBlock(before) then SilentRun(before) + 1
      else if Speaks(e) then 0
      else SilentRun(before)
  }

  /** How many events pass before the switch to the live feed, if it comes. */
  datatype Switch = Never | After(events: nat)

  function SwitchOf(es: seq<Event>): (w: Switch)
    ensures w.After? ==> 0 < w.events <= |es| && SilentRun(es[..w.events]) > QUIET_POLLS
    ensures w.After? ==> forall k | 0 <= k < w.events :: SilentRun(es[..k]) <= QUIET_POLLS
    ensures w.Never? ==> forall k | 0 <= k <= |es| :: SilentRun(es[..k]) <= QUIET_POLLS
  {
    if es == [] then Never
    else
      var before := es[..|es| - 1];
      var w := SwitchOf(before);
      assert forall k | 0 <= k < |es| :: es[..k] == before[..k];
      assert es[..|es|] == es;
      if w.After? then w
      else if SilentRun(es) > QUIET_POLLS then After(|es|)
      else Never
  }

  function Replayed(es: seq<Event>): seq<Packet>
  {
    if es == [] then []
    else
      var e := es[|es| - 1];
      Replayed(es[..|es| - 1]) + if e.Arrive? && e.arrival.Replay? then [e.arrival.packet] else []
  }

  function LivePackets(es: seq<Event>): seq<Packet>
  {
    if es == [] then []
    else
      var e := es[|es| - 1];
      LivePackets(es[..|es| - 1]) + if e.Arrive? && e.arrival.Live? then [e.arrival.packet] else []
  }

  function AllPackets(es: seq<Event>): seq<Packet>
  {
    if es == [] then []
    else
      var e := es[|es| - 1];
      AllPackets(es[..|es| - 1]) + if e.Arrive? && !e.arrival.Nothing? then [e.arrival.packet] else []
  }

  /** Messages as deliveries. */
  function Deliveries(ms: seq<BookMsg>): seq<Action>
  {
    seq(|ms|, i requires 0 <= i < |ms| => Deliver(ms[i]))
  }

  /** What is meant to take effect, in order: the replay, then every live book message held back meanwhile, then
      everything after the switch. Before the switch, the replay alone. */
  function Schedule(es: seq<Event>): seq<Action>
  {
    match SwitchOf(es)
    case Never => Effects(Replayed(es))
    case After(k) => Held(es[..k]) + Effects(AllPackets(es[k..]))
  }

  function Held(es: seq<Event>): seq<Action>
  {
    Effects(Replayed(es)) + Deliveries(MessagesOf(LivePackets(es)))
  }

  // ---- the messages held back

  /** `at` lists, in ascending order, exactly the places of book packets. */
  ghost predicate BookPlaces(packets: seq<Packet>, at: seq<int>)
  {
    && (forall j | 0 <= j < |at| :: 0 <= at[j] < |packets| && packets[at[j]].Book?)
    && (forall i, j | 0 <= i < j < |at| :: at[i] < at[j])
    && (forall i | 0 <= i < |packets| && packets[i].Book? :: i in at)
  }

  lemma PlacesSnoc(packets: seq<Packet>, p: Packet, at: seq<int>)
    requires BookPlaces(packets, at)
    ensures BookPlaces(packets + [p], if p.Book? then at + [|packets|] else at)
  {
    var more, all := packets + [p], if p.Book? then at + [|packets|] else at;
    forall j | 0 <= j < |all|
      ensures 0 <= all[j] < |more| && more[all[j]].Book?
    {
      assert j < |at| ==> all[j] == at[j];
    }
    forall i | 0 <= i < |more| && more[i].Book?
      ensures i in all
    {
      if i < |packets| {
        assert packets[i].Book? && i in at;
      } else {
        assert all[|at|] == i;
      }
    }
  }

  /** These are the messages at these places, and no book packet is anywhere else. */
  ghost predicate MessagesAt(packets: seq<Packet>, at: seq<int>, ms: seq<BookMsg>)
  {
    BookPlaces(packets, at) && |ms| == |at| && forall j | 0 <= j < |at| :: ms[j] == packets[at[j]].msg
  }

  lemma MessagesAtSnoc(packets: seq<Packet>, p: Packet, at: seq<int>, ms: seq<BookMsg>)
    requires MessagesAt(packets, at, ms)
    ensures
      if p.Book? then MessagesAt(packets + [p], at + [|packets|], ms + [p.msg])
      else MessagesAt(packets + [p], at, ms)
  {
    PlacesSnoc(packets, p, at);
    forall j | 0 <= j < |at|
      ensures (packets + [p])[at[j]] == packets[at[j]]
    {
    }
  }

  /** Every book packet gives its message, once and in its place, and nothing else gives any. */
  lemma {:induction false} MessagesAreBooks(packets: seq<Packet>) returns (at: seq<int>)
    ensures MessagesAt(packets, at, MessagesOf(packets))
    decreases |packets|
  {
    if packets == [] {
      at := [];
    } else {
      var n := |packets| - 1;
      var p := packets[n];
      var before := MessagesAreBooks(packets[..n]);
      MessagesAtSnoc(packets[..n], p, before, MessagesOf(packets[..n]));
      assert packets[..n] + [p] == packets;
      at := if p.Book? then before + [n] else before;
      assert MessagesOf(packets[..n]) + [] == MessagesOf(packets[..n]);
    }
  }

  lemma {:induction false} DispatchAllDelivers(f: Feed, ms: seq<BookMsg>)
    ensures DispatchAll(f, ms) == ActAll(f, Deliveries(ms))
    decreases |ms|
  {
    if ms != [] {
      var n := |ms| - 1;
      DispatchAllDelivers(f, ms[..n]);
      assert Deliveries(ms) == Deliveries(ms[..n]) + [Deliver(ms[n])];
      ActAllAppend(f, Deliveries(ms[..n]), [Deliver(ms[n])]);
      var here := ActAll(f, Deliveries(ms[..n]));
      assert [Deliver(ms[n])][1..] == [];
      assert ActAll(here, [Deliver(ms[n])]) == ActAll(Act(here, Deliver(ms[n])), []);
    }
  }

  /** The wait fails, or a live packet comes before the switch when the buffer is already over its limit. */
  predicate StopsAt(es: seq<Event>, k: nat)
    requires k < |es|
  {
    es[k].Fail? ||
    (es[k].Arrive? && es[k].arrival.Live? && SwitchOf(es[..k]).Never? && |LivePackets(es[..k])| > 100000)
  }

  predicate Survives(es: seq<Event>)
  {
    forall k | 0 <= k < |es| :: !StopsAt(es, k)
  }

  // ---- the protocol does what the inputs say

  ghost predicate Tracks(l: Listener, es: seq<Event>)
  {
    && !l.stopped
    && l.feed == ActAll(EmptyFeed(), Schedule(es))
    && (l.caughtUp <==> SwitchOf(es).After?)
    && (if l.caughtUp then l.buffer == []
        else l.buffer == LivePackets(es) && l.receivedSnapshot == SeenBlock(es) && l.noReplay == SilentRun(es))
  }

  lemma SurvivesPrefix(es: seq<Event>)
    requires es != [] && Survives(es)
    ensures Survives(es[..|es| - 1]) && !StopsAt(es, |es| - 1)
  {
    var before := es[..|es| - 1];
    forall k | 0 <= k < |before|
      ensures !StopsAt(before, k)
    {
      assert before[..k] == es[..k];
      assert !StopsAt(es, k);
    }
  }

  function PacketOf(e: Event): seq<Packet>
  {
    if e.Arrive? && !e.arrival.Nothing? then [e.arrival.packet] else []
  }

  /** What one event asks for. */
  function AsksFor(e: Event): seq<Action>
  {
    Effects(PacketOf(e))
  }

  lemma {:induction false} AllPacketsSnoc(es: seq<Event>, e: Event)
    ensures AllPackets(es + [e]) == AllPackets(es) + PacketOf(e)
    ensures Effects(AllPackets(es + [e])) == Effects(AllPackets(es)) + AsksFor(e)
  {
    assert (es + [e])[..|es|] == es;
    EffectsAppend(AllPackets(es), PacketOf(e));
  }

  lemma {:induction false} TailSnoc(es: seq<Event>, k: nat)
    requires k < |es|
    ensures es[..|es| - 1][..k] == es[..k]
    ensures Effects(AllPackets(es[k..])) == Effects(AllPackets(es[..|es| - 1][k..])) + AsksFor(es[|es| - 1])
  {
    var n := |es| - 1;
    SliceSnoc(es, k);
    AllPacketsSnoc(es[..n][k..], es[n]);
  }

  /** After the switch every packet is scheduled as it comes. */
  lemma {:induction false} ScheduleAfterSwitch(es: seq<Event>)
    requires es != [] && SwitchOf(es[..|es| - 1]).After?
    ensures SwitchOf(es) == SwitchOf(es[..|es| - 1])
    ensures Schedule(es) == Schedule(es[..|es| - 1]) + AsksFor(es[|es| - 1])
  {
    var k := SwitchOf(es[..|es| - 1]).events;
    TailSnoc(es, k);
    Associate(Held(es[..k]), Effects(AllPackets(es[..|es| - 1][k..])), AsksFor(es[|es| - 1]));
  }

  /** The switch can only happen at the last event, and then the held-back packets follow the replay. */
  lemma ScheduleBeforeSwitch(es: seq<Event>)
    requires es != [] && SwitchOf(es[..|es| - 1]).Never?
    ensures SilentRun(es[..|es| - 1]) <= QUIET_POLLS
    ensures Schedule(es[..|es| - 1]) == Effects(Replayed(es[..|es| - 1]))
    ensures SwitchOf(es) == if SilentRun(es) > QUIET_POLLS then After(|es|) else Never
    ensures Schedule(es) == if SilentRun(es) > QUIET_POLLS then Held(es) else Effects(Replayed(es))
  {
    var before := es[..|es| - 1];
    assert before[..|before|] == before;
    assert es[..|es|] == es && es[|es|..] == [];
    assert Held(es) + [] == Held(es);
  }

  lemma {:induction false} RunTracks(es: seq<Event>)
    requires Survives(es)
    ensures Tracks(Run(INITIAL, es), es)
  {
    if es != [] {
      var before, e := es[..|es| - 1], es[|es| - 1];
      SurvivesPrefix(es);
      RunTracks(before);
      StepTracks(Run(INITIAL, before), es);
    }
  }

  lemma StepTracks(l: Listener, es: seq<Event>)
    requires es != [] && Tracks(l, es[..|es| - 1]) && !StopsAt(es, |es| - 1)
    ensures Tracks(Handle(l, es[|es| - 1]), es)
  {
    if SwitchOf(es[..|es| - 1]).After? {
      StepTracksAfter(l, es);
    } else if es[|es| - 1].Silent? {
      SilenceTracks(l, es);
    } else {
      ArrivalTracks(l, es);
    }
  }

  lemma StepTracksAfter(l: Listener, es: seq<Event>)
    requires es != [] && Tracks(l, es[..|es| - 1]) && !es[|es| - 1].Fail?
    requires SwitchOf(es[..|es| - 1]).After?
    ensures Tracks(Handle(l, es[|es| - 1]), es)
  {
    ScheduleAfterSwitch(es);
    ActAllAsked(Schedule(es[..|es| - 1]), es[|es| - 1]);
    HandledAtOnce(l, es[|es| - 1]);
  }

  /** Caught up, every packet takes effect as it comes. */
  lemma HandledAtOnce(l: Listener, e: Event)
    requires !l.stopped && l.caughtUp && !e.Fail?
    ensures
      var l' := Handle(l, e);
      && !l'.stopped && l'.caughtUp && l'.buffer == l.buffer
      && l'.feed == if e.Arrive? && !e.arrival.Nothing? then Effect(l.feed, e.arrival.packet) else l.feed
  {
  }

  lemma ActAllAsked(actions: seq<Action>, e: Event)
    ensures
      ActAll(EmptyFeed(), actions + AsksFor(e))
        == if e.Arrive? && !e.arrival.Nothing? then Effect(ActAll(EmptyFeed(), actions), e.arrival.packet)
           else ActAll(EmptyFeed(), actions)
  {
    if e.Arrive? && !e.arrival.Nothing? {
      var p := e.arrival.packet;
      assert [p][1..] == [] && ActionsOf(p) + Effects([]) == ActionsOf(p);
      assert AsksFor(e) == ActionsOf(p);
      ActAllAppend(EmptyFeed(), actions, ActionsOf(p));
    } else {
      assert actions + [] == actions;
    }
  }

  lemma ArrivalTracks(l: Listener, es: seq<Event>)
    requires es != [] && Tracks(l, es[..|es| - 1]) && !StopsAt(es, |es| - 1)
    requires SwitchOf(es[..|es| - 1]).Never? && es[|es| - 1].Arrive?
    ensures Tracks(Handle(l, es[|es| - 1]), es)
  {
    ScheduleBeforeSwitch(es);
    assert SilentRun(es) <= SilentRun(es[..|es| - 1]);
    match es[|es| - 1].arrival {
      case Nothing =>
        assert Replayed(es) == Replayed(es[..|es| - 1]) && LivePackets(es) == LivePackets(es[..|es| - 1]);
      case Live(p) =>
        assert Replayed(es) == Replayed(es[..|es| - 1]);
        assert LivePackets(es) == LivePackets(es[..|es| - 1]) + [p];
      case Replay(p) =>
        assert LivePackets(es) == LivePackets(es[..|es| - 1]);
        ReplayFold(l.feed, es, p);
        ResetsIffSpeaks(p);
    }
  }

  lemma {:induction false} ReplayFold(f: Feed, es: seq<Event>, p: Packet)
    requires es != [] && es[|es| - 1] == Arrive(Replay(p)) && f == Fold(EmptyFeed(), Replayed(es[..|es| - 1]))
    ensures Effect(f, p) == Fold(EmptyFeed(), Replayed(es))
  {
    FoldSnoc(EmptyFeed(), Replayed(es[..|es| - 1]), p);
  }

  lemma {:induction false} SilenceTracks(l: Listener, es: seq<Event>)
    requires es != [] && Tracks(l, es[..|es| - 1]) && es[|es| - 1] == Silent
    requires SwitchOf(es[..|es| - 1]).Never?
    ensures Tracks(Handle(l, es[|es| - 1]), es)
  {
    var before := es[..|es| - 1];
    ScheduleBeforeSwitch(es);
    assert Replayed(es) == Replayed(before) && LivePackets(es) == LivePackets(before);
    assert SilentRun(es) == if SeenBlock(before) then SilentRun(before) + 1 else SilentRun(before);
    assert SeenBlock(es) == SeenBlock(before);
    if SilentRun(es) > QUIET_POLLS {
      HeldTakesEffect(l.feed, es);
    }
  }

  lemma {:induction false} HeldTakesEffect(f: Feed, es: seq<Event>)
    requires f == ActAll(EmptyFeed(), Effects(Replayed(es)))
    ensures DispatchAll(f, MessagesOf(LivePackets(es))) == ActAll(EmptyFeed(), Held(es))
  {
    DispatchAllDelivers(f, MessagesOf(LivePackets(es)));
    ActAllAppend(EmptyFeed(), Effects(Replayed(es)), Deliveries(MessagesOf(LivePackets(es))));
  }

  /** A listener that is not stopped has read exactly the schedule its inputs define, holds back exactly the live
      packets that came before the switch, and has switched exactly when the replay first was quiet long enough. */
  lemma ListenerRefinesSchedule(es: seq<Event>)
    requires Survives(es)
    ensures
      var l := Run(INITIAL, es);
      && !l.stopped
      && l.feed == ActAll(EmptyFeed(), Schedule(es))
      && (l.caughtUp <==> SwitchOf(es).After?)
      && l.buffer == (if l.caughtUp then [] else LivePackets(es))
  {
    RunTracks(es);
  }

  /** At the switch, every book message held back is dispatched, in its order of arrival, on top of what the replay
      left: exactly the messages of the live packets that are book packets. */
  lemma SwitchDispatchesHeld(es: seq<Event>) returns (at: seq<int>, held: seq<BookMsg>)
    requires Survives(es) && SwitchOf(es) == After(|es|)
    ensures MessagesAt(LivePackets(es), at, held)
    ensures Run(INITIAL, es).feed == DispatchAll(Run(INITIAL, es[..|es| - 1]).feed, held)
  {
    held := MessagesOf(LivePackets(es));
    at := MessagesAreBooks(LivePackets(es));
    SwitchDrains(es);
  }

  /** The switch comes with a silent wait. */
  lemma {:induction false} SwitchIsSilent(es: seq<Event>)
    requires SwitchOf(es) == After(|es|)
    ensures es != [] && es[|es| - 1].Silent? && SwitchOf(es[..|es| - 1]).Never?
  {
    var before := es[..|es| - 1];
    assert before[..|before|] == before && es[..|es|] == es;
    assert SwitchOf(before).Never?;
    assert SilentRun(before) <= QUIET_POLLS;
  }

  lemma {:induction false} SwitchDrains(es: seq<Event>)
    requires Survives(es) && SwitchOf(es) == After(|es|)
    ensures Run(INITIAL, es).feed == DispatchAll(Run(INITIAL, es[..|es| - 1]).feed, MessagesOf(LivePackets(es)))
  {
    var before := es[..|es| - 1];
    SwitchIsSilent(es);
    SurvivesPrefix(es);
    RunTracks(before);
    RunTracks(es);
    var l := Run(INITIAL, before);
    assert Run(INITIAL, es) == HandleSilence(l) && !l.caughtUp && HandleSilence(l).caughtUp;
    assert l.buffer == LivePackets(before) == LivePackets(es);
  }

  /** It stops exactly when the wait fails or the buffer overflows before the switch. */
  lemma {:induction false} StopsIff(es: seq<Event>)
    ensures Run(INITIAL, es).stopped <==> !Survives(es)
  {
    if Survives(es) {
      RunTracks(es);
    } else {
      var before := es[..|es| - 1];
      StopsIff(before);
      if Survives(before) {
        RunTracks(before);
        forall k | 0 <= k < |before|
          ensures !StopsAt(es, k)
        {
          assert before[..k] == es[..k];
          assert !StopsAt(before, k);
        }
        assert StopsAt(es, |before|);
      }
    }
  }

  /** The switch comes at the hundred and first silent wait. */
  lemma SwitchAtHundredAndFirst(es: seq<Event>)
    requires SwitchOf(es).After?
    ensures SilentRun(es[..SwitchOf(es).events]) == 101
  {
    var k := SwitchOf(es).events;
    var here := es[..k];
    assert here[..|here| - 1] == es[..k - 1];
    assert SilentRun(es[..k - 1]) <= QUIET_POLLS;
    assert SilentRun(here) <= SilentRun(here[..|here| - 1]) + 1;
  }

  /** Never are more than 100001 packets held. */
  lemma {:induction false} BufferBounded(l: Listener, es: seq<Event>)
    requires |l.buffer| <= 100001
    ensures |Run(l, es).buffer| <= 100001
  {
    if es != [] {
      BufferBounded(l, es[..|es| - 1]);
    }
  }

  /** Once switched, always switched, with nothing held back again. */
  lemma {:induction false} CaughtUpForGood(l: Listener, es: seq<Event>)
    requires l.caughtUp && l.buffer == []
    ensures Run(l, es).caughtUp && Run(l, es).buffer == []
  {
    if es != [] {
      CaughtUpForGood(l, es[..|es| - 1]);
    }
  }

  /** If what is scheduled fits, every book, published value and route is right at the end of the run. */
  lemma ListenerKeepsFeedOk(es: seq<Event>)
    requires Survives(es) && ActionsFit(EmptyFeed(), Schedule(es))
    ensures FeedOk(Run(INITIAL, es).feed)
  {
    RunTracks(es);
    EmptyFeedOk();
    ActAllOk(EmptyFeed(), Schedule(es));
  }
}
