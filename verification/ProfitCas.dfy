/**
 Many threads add to one profit total with a weak compare-exchange loop. Each step is one load or one exchange, and an
 exchange may fail for no reason. Amounts are whole numbers of the smallest unit.
 */
module ProfitCas {
  import opened Sums

  type Thread = nat

  /** An addition under way: what it last read, what it adds, and how many commits it had seen when it read. */
  datatype Attempt = Attempt(expected: int, amount: int, seen: nat)

  datatype Shared = Shared(total: int, commits: nat, busy: map<Thread, Attempt>)

  datatype Step = Load(thread: Thread, amount: int) | Exchange(thread: Thread, spurious: bool)

  predicate Enabled(s: Shared, a: Step)
  {
    match a
    case Load(t, _) => t !in s.busy
    case Exchange(t, _) => t in s.busy
  }

  /** The exchange compares and swaps; on any failure it reloads what it expects. */
  predicate Succeeds(s: Shared, a: Step)
    requires Enabled(s, a)
  {
    a.Exchange? && !a.spurious && s.busy[a.thread].expected == s.total
  }

  function Next(s: Shared, a: Step): Shared
    requires Enabled(s, a)
  {
    match a
    case Load(t, amount) => s.(busy := s.busy[t := Attempt(s.total, amount, s.commits)])
    case Exchange(t, _) =>
      if Succeeds(s, a) then Shared(s.busy[t].expected + s.busy[t].amount, s.commits + 1, s.busy - {t})
      else s.(busy := s.busy[t := Attempt(s.total, s.busy[t].amount, s.commits)])
  }

  predicate Possible(s: Shared, run: seq<Step>)
    decreases |run|
  {
    run != [] ==> Enabled(s, run[0]) && Possible(Next(s, run[0]), run[1..])
  }

  function After(s: Shared, run: seq<Step>): Shared
    requires Possible(s, run)
    decreases |run|
  {
    if run == [] then s else After(Next(s, run[0]), run[1..])
  }

  /** What the successful exchanges of a run add. */
  function Added(s: Shared, run: seq<Step>): int
    requires Possible(s, run)
    decreases |run|
  {
    if run == [] then 0
    else (if Succeeds(s, run[0]) then s.busy[run[0].thread].amount else 0) + Added(Next(s, run[0]), run[1..])
  }

  /** What the additions begun in a run are for. */
  function Begun(run: seq<Step>): int
  {
    if run == [] then 0 else (if run[0].Load? then run[0].amount else 0) + Begun(run[1..])
  }

  function Amounts(busy: map<Thread, Attempt>): map<Thread, int>
  {
    map t | t in busy :: busy[t].amount
  }

  ghost function Outstanding(s: Shared): int
  {
    Total(Amounts(s.busy))
  }

  /** No update is lost and none is made twice, however the threads interleave. */
  lemma {:induction false} NoLostUpdate(s: Shared, run: seq<Step>)
    requires Possible(s, run)
    ensures After(s, run).total == s.total + Added(s, run)
    decreases |run|
  {
    if run != [] {
      NoLostUpdate(Next(s, run[0]), run[1..]);
    }
  }

  lemma StepAmounts(s: Shared, a: Step)
    requires Enabled(s, a)
    ensures
      Outstanding(Next(s, a)) + (if Succeeds(s, a) then s.busy[a.thread].amount else 0)
        == Outstanding(s) + if a.Load? then a.amount else 0
  {
    var t, was, now := a.thread, Amounts(s.busy), Amounts(Next(s, a).busy);
    if a.Load? {
      assert was - {t} == was;
      assert now == was[t := a.amount];
      TotalPut(was, t, a.amount);
    } else if Succeeds(s, a) {
      assert now == was - {t};
      TotalSplit(was, t);
    } else {
      assert now == was;
    }
  }

  /** Everything begun is either added or still under way. */
  lemma {:induction false} BegunIsAddedOrOutstanding(s: Shared, run: seq<Step>)
    requires Possible(s, run)
    ensures Outstanding(s) + Begun(run) == Added(s, run) + Outstanding(After(s, run))
    decreases |run|
  {
    if run != [] {
      StepAmounts(s, run[0]);
      BegunIsAddedOrOutstanding(Next(s, run[0]), run[1..]);
    }
  }

  /** Once every thread has finished, the total has moved by everything the run began. */
  lemma QuiescentTotal(s: Shared, run: seq<Step>)
    requires Possible(s, run) && s.busy == map[] && After(s, run).busy == map[]
    ensures After(s, run).total == s.total + Begun(run)
  {
    NoLostUpdate(s, run);
    BegunIsAddedOrOutstanding(s, run);
    assert Amounts(map[]) == map[];
  }

  /** A failed exchange reloads what it expects: tried again before anybody else adds, and not failing for no reason, it
      succeeds and adds its amount to the total as it stands. */
  lemma RetrySucceeds(s: Shared, t: Thread, spurious: bool)
    requires Enabled(s, Exchange(t, spurious)) && !Succeeds(s, Exchange(t, spurious))
    ensures
      var failed := Next(s, Exchange(t, spurious));
      && failed.total == s.total && failed.commits == s.commits && failed.busy.Keys == s.busy.Keys
      && Enabled(failed, Exchange(t, false)) && Succeeds(failed, Exchange(t, false))
      && Next(failed, Exchange(t, false)).total == s.total + s.busy[t].amount
  {
  }

  /** What a thread last read is out of date only because somebody else has added since. */
  ghost predicate Explained(s: Shared)
  {
    forall t | t in s.busy ::
      s.busy[t].seen <= s.commits && (s.busy[t].seen == s.commits ==> s.busy[t].expected == s.total)
  }

  /** So a failed exchange that was not spurious means that another addition went through in between. */
  lemma {:induction false} FailureMeansProgress(s: Shared, run: seq<Step>, t: Thread)
    requires Explained(s) && Possible(s, run)
    ensures
      var at := After(s, run);
      t in at.busy && !Succeeds(at, Exchange(t, false)) ==> at.busy[t].seen < at.commits
    decreases |run|
  {
    if run != [] {
      FailureMeansProgress(Next(s, run[0]), run[1..], t);
    }
  }
}
