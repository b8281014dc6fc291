/** Which builds can be brought to their end. */
module Finishing {
  import opened Graphs
  import opened Plans
  import opened Schedulers
  import opened Ownership
  import opened Counting
  import opened CoreInvariant
  import opened Steps
  import opened WaitingInvariant
  import opened RunTheorems
  import opened OrderTheorems
  import opened TerminationTheorems
  import opened Knots
  import opened SeedRace

  // ---- Every build without a cycle can be finished ----

  ghost predicate NoFailures(s: State) {
    forall d | 0 <= d < |s.phase| :: !s.phase[d].Failed?
  }

  lemma OrderlyKeepsNoFailures(g: seq<Node>, s: State, a: Action)
    requires Inv(g, s) && Enabled(g, s, a) && Clean(g, s, a) && Orderly(a) && NoFailures(s)
    ensures InRange(g, s) && NoFailures(Apply(g, s, a))
  {
    hide Core, ErrorsOk, MainWaits, MainLeft, QueueServed, ShutdownOk, JoinedOk, Enabled, Clean, Apply, Placed, InRange;
    CoreBasics(g, s);
    StepKeepsRange(g, s, a);
    RangeSizes(g, s);
    RangeSizes(g, Apply(g, s, a));
    CoreIsPlaced(g, s, a);
    forall d: nat | d < |g| ensures !Apply(g, s, a).phase[d].Failed? { PlacedStep(g, s, a, d); }
  }

  /** No step from here on can be an unclean seed. */
  ghost predicate StaysClean(g: seq<Node>, s: State) {
    (SafeOrder(g) && UpwardClosed(g)) || !Scanning(s.main)
  }

  lemma StaysCleanStep(g: seq<Node>, s: State, a: Action)
    requires Inv(g, s) && Prepared(g) && StaysClean(g, s) && Enabled(g, s, a)
    ensures InRange(g, s) && Clean(g, s, a) && StaysClean(g, Apply(g, s, a))
  {
    InvRange(g, s);
    if SafeOrder(g) && UpwardClosed(g) {
      hide Inv, Prepared, SafeOrder, UpwardClosed, Enabled, Clean, Apply;
      SafeSeedIsClean(g, s, a);
    } else {
      hide Inv, Prepared, SafeOrder, UpwardClosed;
      ScanIsOver(g, s, a);
    }
  }

  lemma ScanIsOver(g: seq<Node>, s: State, a: Action)
    requires InRange(g, s) && Enabled(g, s, a) && !Scanning(s.main)
    ensures Clean(g, s, a) && !Scanning(Apply(g, s, a).main)
  {
  }

  /** From every state of a clean run in which nothing has failed the build can be brought to its end, if the graph is
      in safe order or the scan is over; then all dirty nodes are done and the result is 0.  By `RunsAreBounded` it
      cannot be put off for ever. */
  lemma {:induction false} BuildFinishes(g: seq<Node>, s0: State, acts0: seq<Action>, s: State)
    returns (acts: seq<Action>, t: State)
    requires Prepared(g) && Untangled(g) && StaysClean(g, s)
    requires CleanRun(g, s0, acts0, s) && Inv(g, s) && NoFailures(s)
    ensures acts0 <= acts && CleanRun(g, s0, acts, t) && Inv(g, t) && t.main == Returned(0)
    ensures |t.phase| == |g| && forall d: nat | d < |g| && Active(g, d) :: t.phase[d].Done?
    decreases Measure(g, s)
  {
    hide Prepared, StaysClean, Untangled, Inv, InRange, Measure, CleanRun, Apply, Enabled, Clean, NoFailures;
    InvRange(g, s);
    if s.main.Returned? {
      acts, t := acts0, s;
      FinishedWell(g, s);
    } else {
      var a := OrderlyStep(g, s);
      StaysCleanStep(g, s, a);
      StepUses(g, s, a);
      StepKeepsInv(g, s, a);
      OrderlyKeepsNoFailures(g, s, a);
      CleanAppend(g, s0, acts0, s, a);
      acts, t := BuildFinishes(g, s0, acts0 + [a], Apply(g, s, a));
    }
  }

  lemma OrderlyStep(g: seq<Node>, s: State) returns (a: Action)
    requires Inv(g, s) && Prepared(g) && Untangled(g) && !s.main.Returned?
    ensures Enabled(g, s, a) && Orderly(a)
  {
    hide Inv, Untangled, Enabled;
    NoDeadlock(g, s);
    a :| Enabled(g, s, a) && Orderly(a);
  }

  lemma FinishedWell(g: seq<Node>, s: State)
    requires Inv(g, s) && s.main.Returned? && NoFailures(s)
    ensures s.main == Returned(0)
    ensures |s.phase| == |g| && forall d: nat | d < |g| && Active(g, d) :: s.phase[d].Done?
  {
    hide Inv;
    ReturnCode(g, s);
  }

  /** In safe order no run, whatever the interleaving, is ever stuck before it returns. */
  lemma SafeNeverStuck(g: seq<Node>, n: nat, acts: seq<Action>, r: State)
    requires Prepared(g) && Fits(g) && Untangled(g) && UpwardClosed(g) && SafeOrder(g) && ActiveSet(g) != {} && n > 0
    requires Run(g, Start(g, n), acts, r)
    ensures r.main.Returned? || CanStep(g, r)
  {
    hide Prepared, Fits, Untangled, UpwardClosed, SafeOrder, Run, Inv, Start, CanStep;
    StartsInInv(g, n);
    SafeRunIsClean(g, Start(g, n), acts, r);
    if !r.main.Returned? {
      PreparedIsWellFormed(g);
      NoDeadlock(g, r);
    }
  }

  lemma PreparedIsWellFormed(g: seq<Node>)
    requires Prepared(g)
    ensures WellFormed(g)
  {
  }

  // ---- A builder that fails ends the build with 1 ----

  /** Once something has failed, somebody is awake as long as main sleeps, also in a graph with cycles. */
  lemma FailureWakes(g: seq<Node>, s: State, d: nat)
    requires Inv(g, s) && d < |s.phase| && s.phase[d].Failed? && s.main.MainAsleep?
    ensures SomeAwake(s.workers)
  {
    hide Core;
    CoreBasics(g, s);
    RangeSizes(g, s);
    if s.hasError {
      var w: nat :| w < |s.workers| && s.workers[w].Signalling?;
    } else {
      assert s.workers[s.phase[d].worker].Failing?;
    }
  }

  lemma StepAfterFailure(g: seq<Node>, s: State, d: nat) returns (a: Action)
    requires Inv(g, s) && d < |s.phase| && s.phase[d].Failed? && !s.main.Returned?
    ensures Enabled(g, s, a) && Orderly(a)
  {
    hide Inv, Enabled;
    if s.main.MainAsleep? { FailureWakes(g, s, d); }
    CompanyCanStep(g, s);
    a :| Enabled(g, s, a) && Orderly(a);
  }

  lemma FailedCode(g: seq<Node>, s: State, d: nat)
    requires Inv(g, s) && d < |g| && d < |s.phase| && s.phase[d].Failed? && s.main.Returned?
    ensures s.main == Returned(1)
  {
    hide Inv;
    ReturnCode(g, s);
  }

  lemma {:induction false} FailureReturns(g: seq<Node>, s0: State, acts0: seq<Action>, s: State, d: nat)
    returns (acts: seq<Action>, t: State)
    requires Prepared(g) && StaysClean(g, s) && CleanRun(g, s0, acts0, s) && Inv(g, s)
    requires d < |g| && d < |s.phase| && s.phase[d].Failed?
    ensures acts0 <= acts && CleanRun(g, s0, acts, t) && t.main == Returned(1)
    ensures d < |t.phase| && t.phase[d].Failed?
    decreases Measure(g, s)
  {
    hide Prepared, StaysClean, Inv, InRange, Measure, CleanRun, Apply, Enabled, Clean;
    InvRange(g, s);
    if s.main.Returned? {
      acts, t := acts0, s;
      FailedCode(g, s, d);
    } else {
      var a := StepAfterFailure(g, s, d);
      StaysCleanStep(g, s, a);
      TerminalStays(g, s, a, d);
      StepUses(g, s, a);
      StepKeepsInv(g, s, a);
      CleanAppend(g, s0, acts0, s, a);
      acts, t := FailureReturns(g, s0, acts0 + [a], Apply(g, s, a), d);
    }
  }

  /** Whenever the builder of a target is running, it can fail, and then the build ends with 1. */
  lemma FailureEnds(g: seq<Node>, s0: State, acts0: seq<Action>, s: State, w: nat, d: nat)
    returns (acts: seq<Action>, t: State)
    requires Prepared(g) && StaysClean(g, s) && CleanRun(g, s0, acts0, s) && Inv(g, s)
    requires w < |s.workers| && s.workers[w] == Running(d)
    requires d < |g| && g[d].decl.isTarget && g[d].decl.builder.Some?
    ensures acts0 <= acts && CleanRun(g, s0, acts, t) && t.main == Returned(1)
    ensures d < |t.phase| && t.phase[d].Failed?
  {
    hide Prepared, StaysClean, Inv, CleanRun, Clean, InRange;
    InvRange(g, s);
    FailStep(g, s, w, d);
    StaysCleanStep(g, s, Fail(w));
    StepKeepsInv(g, s, Fail(w));
    InvRange(g, Apply(g, s, Fail(w)));
    CleanAppend(g, s0, acts0, s, Fail(w));
    hide Apply, Enabled;
    acts, t := FailureReturns(g, s0, acts0 + [Fail(w)], Apply(g, s, Fail(w)), d);
  }

  lemma FailStep(g: seq<Node>, s: State, w: nat, d: nat)
    requires InRange(g, s) && w < |s.workers| && s.workers[w] == Running(d)
    requires d < |g| && g[d].decl.isTarget && g[d].decl.builder.Some?
    ensures Enabled(g, s, Fail(w))
    ensures d < |Apply(g, s, Fail(w)).phase| && Apply(g, s, Fail(w)).phase[d].Failed?
  {
  }

  /** Nothing else fails: not a source file, and not a target without a builder. */
  lemma OnlyBuildersFail(g: seq<Node>, s: State, d: nat)
    requires Inv(g, s) && d < |g| && d < |s.phase| && s.phase[d].Failed?
    ensures g[d].decl.isTarget && g[d].decl.builder.Some?
  {
    hide Core;
    CoreBasics(g, s);
  }

  /** Somewhere in a run that starts node `d` a worker is at its builder. */
  lemma {:induction false} FindRunning(g: seq<Node>, s: State, acts: seq<Action>, t: State, d: nat)
    returns (k: nat, m: State, w: nat)
    requires CleanRun(g, s, acts, t) && Inv(g, s) && !Scanning(s.main) && d < |g|
    requires |s.started| == |t.started| == |g| && s.started[d] == 0 && t.started[d] > 0
    ensures k <= |acts| && CleanRun(g, s, acts[..k], m) && Inv(g, m) && !Scanning(m.main)
    ensures w < |m.workers| && m.workers[w] == Running(d)
    decreases |acts|
  {
    hide Inv, InRange, Enabled, Clean, Apply;
    var a := acts[0];
    var next := Apply(g, s, a);
    StepKeepsInv(g, s, a);
    ScanIsOver(g, s, a);
    InvRange(g, next);
    RangeSizes(g, next);
    if next.started[d] > 0 {
      w := StartsHere(g, s, a, d);
      k, m := 1, next;
      assert acts[..1] == [a] && [a][1..] == [];
      NoSteps(g, next);
    } else {
      k, m, w := FindRunning(g, next, acts[1..], t, d);
      k := k + 1;
      assert acts[..k][1..] == acts[1..][..k - 1] && acts[..k][0] == a;
    }
  }

  lemma StartsHere(g: seq<Node>, s: State, a: Action, d: nat) returns (w: nat)
    requires InRange(g, s) && Enabled(g, s, a) && d < |g| && d < |Apply(g, s, a).started|
    requires s.started[d] == 0 && Apply(g, s, a).started[d] > 0
    ensures w < |Apply(g, s, a).workers| && Apply(g, s, a).workers[w] == Running(d)
  {
    hide IdsInRange, RingInRange, MainInRange;
    assert a.Check?;
    w := a.w;
  }

  lemma {:induction false} CleanConcat(g: seq<Node>, s: State, a: seq<Action>, m: State, b: seq<Action>, t: State)
    requires CleanRun(g, s, a, m) && CleanRun(g, m, b, t)
    ensures CleanRun(g, s, a + b, t)
    decreases |a|
  {
    hide InRange, Enabled, Clean, Apply;
    if a == [] {
      assert a + b == b;
    } else {
      CleanConcat(g, Apply(g, s, a[0]), a[1..], m, b, t);
      assert (a + b)[1..] == a[1..] + b && (a + b)[0] == a[0];
    }
  }

  // ---- Exactly the builds without a knot can be finished ----

  ghost predicate KnotWaits(s: State, c: set<nat>) {
    forall d | d in c :: d < |s.phase| && s.phase[d].Waiting?
  }

  /** The nodes of a knot wait for ever: one of them could only go after another one. */
  lemma StepKeepsKnot(g: seq<Node>, s: State, a: Action, c: set<nat>)
    requires Inv(g, s) && Prepared(g) && Enabled(g, s, a) && Clean(g, s, a)
    requires Knot(g, c) && KnotWaits(s, c)
    ensures InRange(g, s) && KnotWaits(Apply(g, s, a), c)
  {
    hide Inv, Prepared, Apply, Enabled, Clean, Knot, InRange;
    InvRange(g, s);
    StepKeepsInv(g, s, a);
    var t := Apply(g, s, a);
    forall d | d in c
      ensures d < |t.phase| && t.phase[d].Waiting?
    {
      var m := KnotInput(g, c, d);
      InvSizes(g, s);
      InvSizes(g, t);
      StillWaiting(g, s, a, t, d, m);
    }
  }

  lemma InvSizes(g: seq<Node>, s: State)
    requires Inv(g, s)
    ensures InRange(g, s) && |s.phase| == |g|
  {
  }

  lemma StillWaiting(g: seq<Node>, s: State, a: Action, t: State, d: nat, m: nat)
    requires Inv(g, s) && Prepared(g) && Enabled(g, s, a) && Clean(g, s, a) && InRange(g, s) && t == Apply(g, s, a)
    requires Inv(g, t) && |s.phase| == |t.phase| == |g|
    requires d < |g| && Active(g, d) && m < |g| && Active(g, m) && m in g[d].waitsOn && s.phase[m].Waiting?
    ensures t.phase[d].Waiting?
  {
    if !t.phase[d].Waiting? {
      hide ErrorsOk, MainWaits, MainLeft, QueueServed, ShutdownOk, JoinedOk, Enabled, Clean, Apply, Placed, Succeeded,
           EdgesNamePaths, PendingCounted, ClosedSubgraph, Mirrored, Owned, PendingOk, VisitedOk, StartedOk,
           RemainingOk;
      InputIsPast(g, t, d, m);
      CoreIsPlaced(g, s, a);
      WaiterMovesOnce(g, s, a, m);
    }
  }

  lemma InputIsPast(g: seq<Node>, t: State, d: nat, m: nat)
    requires Inv(g, t) && WellFormed(g) && |t.phase| == |g|
    requires d < |g| && Active(g, d) && m < |g| && Active(g, m) && m in g[d].waitsOn && !t.phase[d].Waiting?
    ensures t.phase[m].Done? || t.phase[m].Held?
  {
    hide ErrorsOk, MainWaits, MainLeft, QueueServed, ShutdownOk, JoinedOk, Succeeded, EdgesNamePaths,
         PendingOk, VisitedOk, StartedOk, RemainingOk, QueueHolds, WaitingOk, Hands;
    InputLeft(g, t, d, m);
    SucceededLeft(g, t, m);
  }

  /** One step does not bring a waiting node past the queue. */
  lemma WaiterMovesOnce(g: seq<Node>, s: State, a: Action, m: nat)
    requires InRange(g, s) && Enabled(g, s, a) && Placed(g, s, a) && m < |g| && s.phase[m].Waiting?
    ensures m < |Apply(g, s, a).phase| && !Apply(g, s, a).phase[m].Done? && !Apply(g, s, a).phase[m].Held?
  {
    if a.Notify? || a.Push? {
      DependentMovesOnce(g, s, a, m);
      hide InRange, Apply, Enabled, Placed;
    } else {
      hide IdsInRange, MainInRange;
    }
  }

  lemma DependentMovesOnce(g: seq<Node>, s: State, a: Action, m: nat)
    requires InRange(g, s) && Enabled(g, s, a) && Placed(g, s, a) && m < |g| && s.phase[m].Waiting?
    requires a.Notify? || a.Push?
    ensures m < |Apply(g, s, a).phase| && !Apply(g, s, a).phase[m].Done? && !Apply(g, s, a).phase[m].Held?
  {
    hide MainInRange;
  }

  lemma {:induction false} RunKeepsKnot(g: seq<Node>, s: State, acts: seq<Action>, t: State, c: set<nat>)
    requires Inv(g, s) && Prepared(g) && CleanRun(g, s, acts, t) && Knot(g, c) && KnotWaits(s, c)
    ensures Inv(g, t) && KnotWaits(t, c)
    decreases |acts|
  {
    if acts != [] {
      hide Inv, Prepared, InRange, Enabled, Clean, Apply, Knot, KnotWaits;
      StepKeepsKnot(g, s, acts[0], c);
      StepKeepsInv(g, s, acts[0]);
      RunKeepsKnot(g, Apply(g, s, acts[0]), acts[1..], t, c);
    }
  }

  /** With a knot no clean run returns 0. */
  lemma KnotNeverFinishes(g: seq<Node>, n: nat, acts: seq<Action>, t: State, c: set<nat>)
    requires Prepared(g) && Fits(g) && ActiveSet(g) != {} && n > 0 && Knot(g, c)
    requires CleanRun(g, Start(g, n), acts, t)
    ensures t.main != Returned(0)
  {
    hide Prepared, Fits, CleanRun, Inv, Start, Knot, ActiveSet;
    StartsInInv(g, n);
    StartWaits(g, n, c);
    RunKeepsKnot(g, Start(g, n), acts, t, c);
    if t.main == Returned(0) {
      ReturnCode(g, t);
      KnotMember(g, c);
    }
  }

  lemma KnotMember(g: seq<Node>, c: set<nat>)
    requires Knot(g, c)
    ensures exists d: nat :: d in c && d < |g| && Active(g, d)
  {
    hide WaitsWithin;
    var d :| d in c;
    assert d < |g| && Active(g, d);
  }

  lemma StartWaits(g: seq<Node>, n: nat, c: set<nat>)
    requires ActiveSet(g) != {} && Knot(g, c)
    ensures KnotWaits(Start(g, n), c)
  {
    hide ActiveSet, WaitsWithin;
  }

  /** Without one, the scan alone and then any orderly steps lead to it. */
  lemma UntangledFinishes(g: seq<Node>, n: nat) returns (acts: seq<Action>, t: State)
    requires Prepared(g) && Fits(g) && ActiveSet(g) != {} && n > 0 && Untangled(g)
    ensures CleanRun(g, Start(g, n), acts, t) && t.main == Returned(0)
  {
    hide Prepared, Fits, CleanRun, Inv, Start, ActiveSet, Untangled, InRange, AllIdle, Apply, Enabled, Clean,
         CountersUntouched, NoFailures;
    var s;
    acts, s := ScanTo(g, n, |g|);
    InvRange(g, s);
    IdleHasNoFailures(g, s);
    ScanEnds(g, s);
    StepKeepsInv(g, s, Seed);
    InvRange(g, Apply(g, s, Seed));
    CleanAppend(g, Start(g, n), acts, s, Seed);
    acts, t := BuildFinishes(g, Start(g, n), acts + [Seed], Apply(g, s, Seed));
  }

  /** A target that is built can also fail: some run of the whole build ends with 1 because of it. */
  lemma SomeRunFails(g: seq<Node>, n: nat, d: nat) returns (acts: seq<Action>, t: State)
    requires Prepared(g) && Fits(g) && n > 0 && Untangled(g)
    requires d < |g| && Active(g, d) && g[d].decl.isTarget && g[d].decl.builder.Some?
    ensures d in ActiveSet(g) && CleanRun(g, Start(g, n), acts, t) && t.main == Returned(1)
    ensures d < |t.phase| && t.phase[d].Failed?
  {
    hide Prepared, Fits, CleanRun, Inv, Start, Untangled, InRange, AllIdle, Enabled, Clean, Apply, CountersUntouched,
         NoFailures, StaysClean;
    assert d in ActiveSet(g);
    var s;
    acts, s := ScanTo(g, n, |g|);
    InvRange(g, s);
    IdleHasNoFailures(g, s);
    ScanEnds(g, s);
    StepKeepsInv(g, s, Seed);
    var l := Apply(g, s, Seed);
    InvRange(g, l);
    CleanAppend(g, Start(g, n), acts, s, Seed);
    acts := acts + [Seed];
    NoSteps(g, l);
    var rest, done := BuildFinishes(g, l, [], l);
    NothingStarted(g, n, d);
    DoneIsStarted(g, done, d);
    RangeSizes(g, l);
    LockingIsClean(g, l);
    var k, m, w := FindRunning(g, l, rest, done, d);
    CleanConcat(g, Start(g, n), acts, l, rest[..k], m);
    LockingIsClean(g, m);
    acts, t := FailureEnds(g, Start(g, n), acts + rest[..k], m, w, d);
  }

  lemma LockingIsClean(g: seq<Node>, s: State)
    ensures s.main == Locking ==> !Scanning(s.main)
    ensures !Scanning(s.main) ==> StaysClean(g, s)
  {
  }

  lemma NothingStarted(g: seq<Node>, n: nat, d: nat)
    requires ActiveSet(g) != {} && d < |g|
    ensures |Start(g, n).started| == |g| && Start(g, n).started[d] == 0
  {
    hide ActiveSet;
  }

  lemma DoneIsStarted(g: seq<Node>, s: State, d: nat)
    requires Inv(g, s) && d < |g| && d < |s.phase| && s.phase[d].Done?
    ensures |s.started| == |g| && s.started[d] > 0
  {
    hide Owned, VisitedOk, PendingOk, RemainingOk, ErrorsOk, MainWaits, MainLeft, QueueServed, ShutdownOk, JoinedOk;
    CoreBasics(g, s);
    RangeSizes(g, s);
  }

  lemma IdleHasNoFailures(g: seq<Node>, s: State)
    requires Inv(g, s) && AllIdle(s)
    ensures NoFailures(s)
  {
    hide Core, MainWaits, MainLeft, QueueServed, ShutdownOk, JoinedOk;
    CoreBasics(g, s);
    RangeSizes(g, s);
  }

  lemma ScanEnds(g: seq<Node>, s: State)
    requires InRange(g, s) && s.main == Seeding(|g|)
    ensures Enabled(g, s, Seed) && Clean(g, s, Seed)
    ensures Apply(g, s, Seed) == s.(main := Locking) && StaysClean(g, Apply(g, s, Seed))
    ensures NoFailures(s) ==> NoFailures(Apply(g, s, Seed))
  {
  }

  /** A build can end with 0, in a clean run, exactly if no dirty nodes wait for each other in a cycle. */
  lemma FinishableIff(g: seq<Node>, n: nat)
    requires Prepared(g) && Fits(g) && ActiveSet(g) != {} && n > 0
    ensures Untangled(g) <==> exists acts, t :: CleanRun(g, Start(g, n), acts, t) && t.main == Returned(0)
  {
    hide Prepared, Fits, CleanRun, Start, ActiveSet, Knot;
    if Untangled(g) {
      var acts, t := UntangledFinishes(g, n);
    } else {
      var c :| Knot(g, c);
      forall acts, t | CleanRun(g, Start(g, n), acts, t) ensures t.main != Returned(0) {
        KnotNeverFinishes(g, n, acts, t, c);
      }
    }
  }
}
