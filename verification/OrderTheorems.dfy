/** Order of execution, containment of failures, absence of deadlock, termination and the return code. */
module OrderTheorems {
  import opened Basics
  import opened Graphs
  import opened Plans
  import opened Knots
  import opened Schedulers
  import opened Ownership
  import opened Counting
  import opened CoreInvariant
  import opened Steps
  import opened WaitingInvariant
  import opened RunTheorems

  // ---- Order ----

  /** The builder stage of `m` has ended without an error. */
  ghost predicate Succeeded(g: seq<Node>, s: State, m: nat)
    requires m < |s.phase|
  {
    || s.phase[m].Done?
    || exists w :: 0 <= w < |s.workers| && (
         s.workers[w] == Finishing(m)
         || (s.workers[w].Notifying? && s.workers[w].node == m)
         || (s.workers[w].Pushing? && s.workers[w].node == m))
  }

  lemma VisitedMeansSucceeded(g: seq<Node>, s: State, m: nat)
    requires InRange(g, s) && Holders(g, s) && VisitedOk(g, s) && m < |g| && s.notified[m] > 0
    ensures Succeeded(g, s, m)
  {
  }

  /** Once a dirty node has left the waiting phase, each of its dirty inputs has succeeded. */
  lemma InputSucceeded(g: seq<Node>, s: State, d: nat, m: nat)
    requires Core(g, s) && Mirrored(g) && d < |g| && Active(g, d) && !s.phase[d].Waiting?
    requires m in g[d].waitsOn && m < |g| && Active(g, m)
    ensures Succeeded(g, s, m)
  {
    assert s.pending[d] == 0;
    NothingOwed(g, s.notified, d, |g|, m);
    assert multiset(g[d].waitsOn)[m] > 0;
    assert multiset(g[m].dependents)[d] == multiset(g[d].waitsOn)[m];
    assert g[m].dependents[0..] == g[m].dependents;
    VisitedMeansSucceeded(g, s, m);
  }

  /** Every dirty node transitively below a node that has left the waiting phase has succeeded. */
  lemma {:induction false} BelowSucceeded(g: seq<Node>, s: State, d: nat, x: nat, m: nat, k: nat)
    requires Core(g, s) && Mirrored(g) && UpwardClosed(g) && ClosedSubgraph(g)
    requires d < |g| && Active(g, d) && !s.phase[d].Waiting? && x in g[d].waitsOn
    requires ReachIn(g, x, m, k) && m < |g| && Active(g, m)
    ensures Succeeded(g, s, m)
    decreases k
  {
    hide Core, Mirrored, UpwardClosed, ClosedSubgraph, Reach, Succeeded;
    CoreBasics(g, s);
    InputInSubgraph(g, d, x);
    ReachStaysActive(g, x, m, k);
    InputLeft(g, s, d, x);
    if k > 0 {
      var y :| y in g[x].waitsOn && ReachIn(g, y, m, k - 1);
      BelowSucceeded(g, s, x, y, m, k - 1);
    }
  }

  lemma InputLeft(g: seq<Node>, s: State, d: nat, x: nat)
    requires Core(g, s) && Mirrored(g) && d < |g| && Active(g, d) && !s.phase[d].Waiting?
    requires x in g[d].waitsOn && x < |g| && Active(g, x)
    ensures Succeeded(g, s, x) && !s.phase[x].Waiting?
  {
    hide QueueHolds, StartedOk, RemainingOk, Mirrored, PendingOk, VisitedOk, WaitingOk;
    InputSucceeded(g, s, d, x);
    SucceededLeft(g, s, x);
  }

  lemma SucceededLeft(g: seq<Node>, s: State, x: nat)
    requires InRange(g, s) && Holders(g, s) && x < |g| && Succeeded(g, s, x)
    ensures s.phase[x].Done? || s.phase[x].Held?
  {
    if !s.phase[x].Done? {
      var w: nat :| w < |s.workers| && (
         s.workers[w] == Finishing(x)
         || (s.workers[w].Notifying? && s.workers[w].node == x)
         || (s.workers[w].Pushing? && s.workers[w].node == x));
      assert V(g, s, w).node == Some(x);
    }
  }

  lemma InputInSubgraph(g: seq<Node>, d: nat, x: nat)
    requires IdsInRange(g) && ClosedSubgraph(g) && d < |g| && Active(g, d) && x in g[d].waitsOn
    ensures x < |g| && g[x].marks.inSubgraph
  {
  }

  /** A node whose builder stage has begun has only completed dirty nodes below it. */
  lemma OrderRespected(g: seq<Node>, s: State, d: nat, x: nat, m: nat)
    requires Inv(g, s) && Prepared(g) && UpwardClosed(g)
    requires d < |g| && Active(g, d) && x in g[d].waitsOn && Reach(g, x, m) && m < |g| && Active(g, m)
    requires s.started[d] > 0
    ensures Succeeded(g, s, m)
  {
    hide UpwardClosed, ClosedSubgraph, Mirrored, PendingOk, VisitedOk, QueueHolds, WaitingOk, RemainingOk,
         ErrorsOk, MainWaits, MainLeft, QueueServed, ShutdownOk, JoinedOk, Hands, Succeeded;
    assert !s.phase[d].Waiting?;
    var k: nat :| ReachIn(g, x, m, k);
    BelowSucceeded(g, s, d, x, m, k);
  }

  /** Nothing above a failed node has been started. */
  lemma FailureContained(g: seq<Node>, s: State, f: nat, d: nat, x: nat)
    requires Inv(g, s) && Prepared(g) && UpwardClosed(g)
    requires f < |g| && s.phase[f].Failed?
    requires d < |g| && Active(g, d) && x in g[d].waitsOn && Reach(g, x, f)
    ensures s.started[d] == 0 && s.phase[d].Waiting?
  {
    hide UpwardClosed, ClosedSubgraph, Mirrored, PendingOk, VisitedOk, QueueHolds, WaitingOk, RemainingOk,
         ErrorsOk, MainWaits, MainLeft, QueueServed, ShutdownOk, JoinedOk, Hands, Succeeded;
    if !s.phase[d].Waiting? {
      var k: nat :| ReachIn(g, x, f, k);
      BelowSucceeded(g, s, d, x, f, k);
      SucceededLeft(g, s, f);
      assert false;
    }
  }

  /** A failure is never forgotten, so nothing above it is started later either. */
  lemma {:induction false} FailureContainedForever(g: seq<Node>, s: State, acts: seq<Action>, t: State,
                                                   f: nat, d: nat, x: nat)
    requires Inv(g, s) && Prepared(g) && UpwardClosed(g) && CleanRun(g, s, acts, t)
    requires f < |g| && s.phase[f].Failed?
    requires d < |g| && Active(g, d) && x in g[d].waitsOn && Reach(g, x, f)
    ensures Inv(g, t) && t.phase[f].Failed? && t.started[d] == 0
    decreases |acts|
  {
    if acts == [] {
      FailureContained(g, s, f, d, x);
    } else {
      var a := acts[0];
      TerminalStays(g, s, a, f);
      StepKeepsInv(g, s, a);
      hide Inv, Prepared, UpwardClosed, Enabled, Clean, Apply, Reach;
      FailureContainedForever(g, Apply(g, s, a), acts[1..], t, f, d, x);
    }
  }

  lemma NoStartAfterError(g: seq<Node>, s: State, a: Action)
    requires InRange(g, s) && Enabled(g, s, a) && s.hasError
    ensures Apply(g, s, a).hasError && Apply(g, s, a).started == s.started
  {
    hide IdsInRange, RingInRange, MainInRange, WorkersInRange;
  }

  /** Once an error is stored no builder is called any more, in any run, clean or not. */
  lemma {:induction false} ErrorStopsCalls(g: seq<Node>, s: State, acts: seq<Action>, t: State)
    requires Run(g, s, acts, t) && s.hasError
    ensures t.hasError && t.started == s.started
    decreases |acts|
  {
    if acts != [] {
      hide InRange, Enabled, Apply;
      NoStartAfterError(g, s, acts[0]);
      ErrorStopsCalls(g, Apply(g, s, acts[0]), acts[1..], t);
    }
  }

  lemma TerminalStays(g: seq<Node>, s: State, a: Action, f: nat)
    requires Inv(g, s) && Enabled(g, s, a) && Clean(g, s, a) && f < |g| && Terminal(s.phase[f])
    ensures f < |Apply(g, s, a).phase| && Apply(g, s, a).phase[f] == s.phase[f]
  {
    hide Core, Enabled, Clean, Apply, InRange, Placed, ErrorsOk;
    CoreBasics(g, s);
    CoreIsPlaced(g, s, a);
    PlacedStep(g, s, a, f);
  }
}
