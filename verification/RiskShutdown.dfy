/** Shutdown is for good, and nothing but deletions goes out after it. */
module RiskShutdown {
  import opened Market
  import opened Risk

  /** A position past its limit means the engine has shut down. */
  predicate PositionGuarded(l: Limits, s: State)
  {
    Abs(s.position) > l.maxPosition ==> s.shutdown
  }

  lemma StepGuarded(l: Limits, s: State, e: Event)
    requires PositionGuarded(l, s)
    ensures PositionGuarded(l, Step(l, s, e))
    ensures s.shutdown ==> Step(l, s, e).shutdown && !Forwards(l, s, e)
  {
  }

  /** In every state between calls, a position past its limit means shutdown. */
  lemma {:induction false} RunGuarded(l: Limits, s: State, es: seq<Event>)
    requires PositionGuarded(l, s)
    ensures PositionGuarded(l, Run(l, s, es))
    decreases |es|
  {
    if es != [] {
      StepGuarded(l, s, es[0]);
      RunGuarded(l, Step(l, s, es[0]), es[1..]);
    }
  }

  /** New and modify requests that reach the exchange during a run. */
  ghost function ForwardedIn(l: Limits, s: State, es: seq<Event>): nat
    decreases |es|
  {
    if es == [] then 0 else (if Forwards(l, s, es[0]) then 1 else 0) + ForwardedIn(l, Step(l, s, es[0]), es[1..])
  }

  lemma StepAfterShutdown(l: Limits, s: State, e: Event)
    requires s.shutdown
    ensures Step(l, s, e).shutdown && !Forwards(l, s, e)
    ensures Step(l, s, e).open.Keys <= s.open.Keys
    ensures s.open == map[] ==>
              var s' := Step(l, s, e);
              s'.open == map[] && s'.position == s.position && s'.pnl.buyCost == s.pnl.buyCost
              && s'.pnl.sellRevenue == s.pnl.sellRevenue && s'.pnl.position == s.pnl.position
  {
  }

  /** After shutdown: still shut down, nothing forwarded, and the orders left open can only become fewer. */
  lemma {:induction false} ShutdownForGood(l: Limits, s: State, es: seq<Event>)
    requires s.shutdown
    ensures Run(l, s, es).shutdown && ForwardedIn(l, s, es) == 0 && Run(l, s, es).open.Keys <= s.open.Keys
    decreases |es|
  {
    if es != [] {
      StepAfterShutdown(l, s, es[0]);
      ShutdownForGood(l, Step(l, s, es[0]), es[1..]);
    }
  }

  /** A call that shuts the engine down leaves open exactly the orders whose deletion was refused. */
  lemma ShutdownLeavesRefused(l: Limits, s: State, refused: set<OrderId>)
    requires !s.shutdown && Breached(l, s)
    ensures
      var s' := CheckShutdown(l, s, refused);
      && s'.shutdown && s'.open.Keys == s.open.Keys * refused
      && (forall id | id in s'.open :: s'.open[id] == s.open[id])
      && s'.position == s.position && s'.pnl == s.pnl
  {
  }

  /** If every deletion went through, position and cash never change again, whatever happens next. */
  lemma {:induction false} FrozenAfterCleanShutdown(l: Limits, s: State, es: seq<Event>)
    requires s.shutdown && s.open == map[]
    ensures
      var s' := Run(l, s, es);
      && s'.shutdown && s'.open == map[] && s'.position == s.position
      && s'.pnl.buyCost == s.pnl.buyCost && s'.pnl.sellRevenue == s.pnl.sellRevenue && s'.pnl.position == s.pnl.position
    decreases |es|
  {
    if es != [] {
      StepAfterShutdown(l, s, es[0]);
      FrozenAfterCleanShutdown(l, Step(l, s, es[0]), es[1..]);
    }
  }
}
