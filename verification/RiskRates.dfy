/** How many new and modify requests the rate limits let through, per window, per second and per sequence number. */
module RiskRates {
  import opened Market
  import opened Risk

  /** A forwarded request: when, in which rate window, and under which stretch of an unchanged sequence number. */
  datatype Stamp = Stamp(time: int, window: int, stretch: nat)

  function TimeOf(e: Event, clock: int): int
  {
    if e.SendNew? || e.SendModify? then e.now else clock
  }

  /** Times never go back. */
  predicate Timely(clock: int, es: seq<Event>)
    decreases |es|
  {
    es != [] ==> clock <= TimeOf(es[0], clock) && Timely(TimeOf(es[0], clock), es[1..])
  }

  predicate NewStretch(s: State, e: Event)
  {
    e.SeqNum? && e.seqNum != s.rates.lastSeqNum
  }

  function NextStretch(s: State, e: Event, stretch: nat): nat
  {
    if NewStretch(s, e) then stretch + 1 else stretch
  }

  function Stamped(l: Limits, s: State, e: Event, stretch: nat): seq<Stamp>
  {
    if Forwards(l, s, e) then [Stamp(TimeOf(e, 0), Refresh(s.rates, TimeOf(e, 0)).windowStart, stretch)] else []
  }

  /** Every forwarded request of a run, in order. */
  ghost function Log(l: Limits, s: State, es: seq<Event>, stretch: nat): seq<Stamp>
    decreases |es|
  {
    if es == [] then []
    else Stamped(l, s, es[0], stretch) + Log(l, Step(l, s, es[0]), es[1..], NextStretch(s, es[0], stretch))
  }

  function InWindow(log: seq<Stamp>, window: int): nat
  {
    if log == [] then 0 else (if log[0].window == window then 1 else 0) + InWindow(log[1..], window)
  }

  function InStretch(log: seq<Stamp>, stretch: nat): nat
  {
    if log == [] then 0 else (if log[0].stretch == stretch then 1 else 0) + InStretch(log[1..], stretch)
  }

  function Between(log: seq<Stamp>, from: int, to: int): nat
  {
    if log == [] then 0 else (if from <= log[0].time < to then 1 else 0) + Between(log[1..], from, to)
  }

  // ---- rate windows

  predicate StampOk(st: Stamp, window: int)
  {
    st.window <= st.time < st.window + WINDOW && (st.window == window || window + WINDOW <= st.window)
  }

  /** A log that starts in the window opened at `window`, of whose allowance `used` are gone. */
  ghost predicate WindowsOk(l: Limits, log: seq<Stamp>, window: int, used: nat)
  {
    && (forall i | 0 <= i < |log| :: StampOk(log[i], window))
    && (forall i, j | 0 <= i < j < |log| ::
          log[i].window == log[j].window || log[i].window + WINDOW <= log[j].window)
    && InWindow(log, window) + used <= l.maxPerSecond
    && forall w: int | w != window :: InWindow(log, w) <= l.maxPerSecond
  }

  lemma {:induction false} NoneInWindow(log: seq<Stamp>, window: int)
    requires forall i | 0 <= i < |log| :: log[i].window != window
    ensures InWindow(log, window) == 0
  {
    if log != [] {
      NoneInWindow(log[1..], window);
    }
  }

  /** One more request at the front, in the window the rest starts in. */
  lemma WindowsCons(l: Limits, st: Stamp, log: seq<Stamp>, used: nat)
    requires WindowsOk(l, log, st.window, used + 1) && StampOk(st, st.window)
    ensures WindowsOk(l, [st] + log, st.window, used)
  {
    var all := [st] + log;
    assert all[1..] == log;
    forall i | 0 <= i < |all|
      ensures StampOk(all[i], st.window)
    {
      assert i > 0 ==> all[i] == log[i - 1];
    }
    forall i, j | 0 <= i < j < |all|
      ensures all[i].window == all[j].window || all[i].window + WINDOW <= all[j].window
    {
      assert all[j] == log[j - 1] && (i > 0 ==> all[i] == log[i - 1]);
    }
    forall w: int | w != st.window
      ensures InWindow(all, w) <= l.maxPerSecond
    {
      assert InWindow(all, w) == InWindow(log, w);
    }
  }

  /** A log that starts in a later window also starts after the earlier one. */
  lemma WindowsEarlier(l: Limits, log: seq<Stamp>, earlier: int, window: int, used: nat, used': nat)
    requires WindowsOk(l, log, window, used') && earlier + WINDOW <= window && used <= l.maxPerSecond
    ensures WindowsOk(l, log, earlier, used)
  {
    forall i | 0 <= i < |log|
      ensures StampOk(log[i], earlier) && log[i].window != earlier
    {
      assert StampOk(log[i], window);
    }
    NoneInWindow(log, earlier);
  }

  lemma RefreshedWindow(s: State, now: int)
    requires s.rates.windowStart <= now
    ensures
      var r := Refresh(s.rates, now);
      && r.windowStart <= now < r.windowStart + WINDOW
      && (r == s.rates || (r.thisSecond == 0 && s.rates.windowStart + WINDOW <= r.windowStart))
  {
  }

  /** What one call does to the window counter. */
  lemma StepWindow(l: Limits, s: State, e: Event, clock: int)
    requires s.rates.windowStart <= clock <= TimeOf(e, clock) && s.rates.thisSecond <= l.maxPerSecond
    ensures
      var r := if e.SendNew? || e.SendModify? then Refresh(s.rates, e.now) else s.rates;
      var r' := Step(l, s, e).rates;
      && r'.windowStart == r.windowStart <= TimeOf(e, clock)
      && r'.thisSecond == r.thisSecond + (if Forwards(l, s, e) then 1 else 0) <= l.maxPerSecond
  {
    if e.SendNew? || e.SendModify? {
      RefreshedWindow(s, e.now);
    }
  }

  lemma {:induction false} LogWindows(l: Limits, s: State, es: seq<Event>, stretch: nat, clock: int)
    requires s.rates.windowStart <= clock && s.rates.thisSecond <= l.maxPerSecond && Timely(clock, es)
    ensures WindowsOk(l, Log(l, s, es, stretch), s.rates.windowStart, s.rates.thisSecond)
    decreases |es|
  {
    if es == [] {
      NoneInWindow([], s.rates.windowStart);
    } else {
      var e, next := es[0], Step(l, s, es[0]);
      var rest := Log(l, next, es[1..], NextStretch(s, e, stretch));
      StepWindow(l, s, e, clock);
      LogWindows(l, next, es[1..], NextStretch(s, e, stretch), TimeOf(e, clock));
      var r := if e.SendNew? || e.SendModify? then Refresh(s.rates, e.now) else s.rates;
      var here := Stamped(l, s, e, stretch) + rest;
      if Forwards(l, s, e) {
        RefreshedWindow(s, e.now);
        WindowsCons(l, Stamp(e.now, r.windowStart, stretch), rest, r.thisSecond);
      } else {
        assert here == rest;
      }
      assert WindowsOk(l, here, r.windowStart, r.thisSecond);
      if e.SendNew? || e.SendModify? {
        RefreshedWindow(s, e.now);
        if r != s.rates {
          WindowsEarlier(l, here, s.rates.windowStart, r.windowStart, s.rates.thisSecond, r.thisSecond);
        }
      }
    }
  }

  /** If all the requests of an interval belong to two windows, there are no more of them than in those windows. */
  lemma {:induction false} BetweenByWindows(log: seq<Stamp>, from: int, to: int, u: int, v: int)
    requires forall i | 0 <= i < |log| && from <= log[i].time < to :: log[i].window == u || log[i].window == v
    ensures Between(log, from, to) <= InWindow(log, u) + if u == v then 0 else InWindow(log, v)
  {
    if log != [] {
      forall i | 0 <= i < |log[1..]| && from <= log[1..][i].time < to
        ensures log[1..][i].window == u || log[1..][i].window == v
      {
        assert log[1..][i] == log[i + 1];
      }
      BetweenByWindows(log[1..], from, to, u, v);
    }
  }

  /** An interval shorter than two windows meets at most two of them. */
  lemma TwoWindows(l: Limits, log: seq<Stamp>, window: int, used: nat, from: int) returns (u: int, v: int)
    requires WindowsOk(l, log, window, used)
    ensures forall i | 0 <= i < |log| && from <= log[i].time < from + WINDOW :: log[i].window == u || log[i].window == v
  {
    u, v := 0, 0;
    if i :| 0 <= i < |log| && from <= log[i].time < from + WINDOW {
      assert StampOk(log[i], window);
      u, v := log[i].window, log[i].window;
      if j :| 0 <= j < |log| && from <= log[j].time < from + WINDOW && log[j].window != u {
        assert StampOk(log[j], window);
        v := log[j].window;
        forall k | 0 <= k < |log| && from <= log[k].time < from + WINDOW
          ensures log[k].window == u || log[k].window == v
        {
          assert StampOk(log[k], window);
        }
      }
    }
  }

  /** No window lets through more than its limit, and no second, wherever it starts, more than twice that. */
  lemma RateLimited(l: Limits, start: int, es: seq<Event>, window: int, from: int)
    requires Timely(start, es)
    ensures
      var log := Log(l, Initial(start), es, 0);
      InWindow(log, window) <= l.maxPerSecond && Between(log, from, from + WINDOW) <= 2 * l.maxPerSecond
  {
    LogWindows(l, Initial(start), es, 0, start);
    var log := Log(l, Initial(start), es, 0);
    var u, v := TwoWindows(l, log, start, 0, from);
    BetweenByWindows(log, from, from + WINDOW, u, v);
  }

  // ---- sequence numbers

  ghost predicate StretchesOk(l: Limits, log: seq<Stamp>, stretch: nat, used: nat)
  {
    && (forall i | 0 <= i < |log| :: stretch <= log[i].stretch)
    && InStretch(log, stretch) + used <= l.maxPerSeqNum
    && forall t: nat | t != stretch :: InStretch(log, t) <= l.maxPerSeqNum
  }

  lemma {:induction false} NoneInStretch(log: seq<Stamp>, stretch: nat)
    requires forall i | 0 <= i < |log| :: log[i].stretch != stretch
    ensures InStretch(log, stretch) == 0
  {
    if log != [] {
      NoneInStretch(log[1..], stretch);
    }
  }

  lemma StepStretch(l: Limits, s: State, e: Event)
    requires s.rates.thisSeqNum <= l.maxPerSeqNum
    ensures
      Step(l, s, e).rates.thisSeqNum
        == if NewStretch(s, e) then 0 else s.rates.thisSeqNum + (if Forwards(l, s, e) then 1 else 0)
    ensures Forwards(l, s, e) ==> s.rates.thisSeqNum < l.maxPerSeqNum && !NewStretch(s, e)
  {
  }

  lemma {:induction false} LogStretches(l: Limits, s: State, es: seq<Event>, stretch: nat)
    requires s.rates.thisSeqNum <= l.maxPerSeqNum
    ensures StretchesOk(l, Log(l, s, es, stretch), stretch, s.rates.thisSeqNum)
    decreases |es|
  {
    if es == [] {
      NoneInStretch([], stretch);
    } else {
      var e, next, t := es[0], Step(l, s, es[0]), NextStretch(s, es[0], stretch);
      var rest := Log(l, next, es[1..], t);
      StepStretch(l, s, e);
      LogStretches(l, next, es[1..], t);
      if Forwards(l, s, e) {
        var st := Stamped(l, s, e, stretch)[0];
        assert Log(l, s, es, stretch) == [st] + rest && ([st] + rest)[1..] == rest;
        forall u: nat | u != stretch
          ensures InStretch([st] + rest, u) <= l.maxPerSeqNum
        {
          assert InStretch([st] + rest, u) == InStretch(rest, u);
        }
      } else {
        assert Log(l, s, es, stretch) == rest;
        if t != stretch {
          NoneInStretch(rest, stretch);
        }
      }
    }
  }

  /** While the sequence number stays the same, no more than its limit goes out. */
  lemma SeqNumLimited(l: Limits, start: int, es: seq<Event>, stretch: nat)
    ensures InStretch(Log(l, Initial(start), es, 0), stretch) <= l.maxPerSeqNum
  {
    LogStretches(l, Initial(start), es, 0);
  }
}
