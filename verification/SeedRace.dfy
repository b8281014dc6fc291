/** The workers start before the seed scan ends, so the scan can read a zero that a worker produced and
    queue a node a second time.  This module says exactly for which graphs that can happen. */
module SeedRace {
  import opened Basics
  import opened Graphs
  import opened Plans
  import opened TaskQueues
  import opened Schedulers
  import opened Ownership
  import opened Counting
  import opened CoreInvariant
  import opened Steps
  import opened WaitingInvariant
  import opened RunTheorems
  import opened OrderTheorems
  import opened TerminationTheorems
  import opened Knots

  /** A dirty node without dirty inputs: what the seed scan is there to queue. */
  predicate Leaf(g: seq<Node>, d: nat)
    requires d < |g|
  {
    Active(g, d) && g[d].marks.pendingDeps == 0
  }

  /** Some leaf below `d` has a higher id, so that the scan reaches `d` before `d` can be complete. */
  ghost predicate SeededLater(g: seq<Node>, d: nat) {
    exists l: nat :: l < |g| && Leaf(g, l) && Reach(g, d, l) && d < l
  }

  /** The condition on a prepared graph: every dirty node with dirty inputs has a leaf below it with a higher id. */
  ghost predicate SafeOrder(g: seq<Node>) {
    forall d: nat | d < |g| && Active(g, d) && g[d].marks.pendingDeps > 0 :: SeededLater(g, d)
  }

  // ---- The condition is sufficient ----

  lemma SafeSeedIsClean(g: seq<Node>, s: State, a: Action)
    requires Inv(g, s) && Prepared(g) && UpwardClosed(g) && SafeOrder(g) && Enabled(g, s, a)
    ensures Clean(g, s, a)
  {
    InvRange(g, s);
    if !Clean(g, s, a) {
      var i := s.main.i;
      var l: nat :| l < |g| && Leaf(g, l) && Reach(g, i, l) && i < l;
      var x := ReachFirst(g, i, l);
      ZeroSeedCompletes(g, s, i, x, l);
      assert false;
    }
  }

  /** If the scan finds node `i` at zero although it had dirty inputs, every leaf below it has been scanned. */
  lemma ZeroSeedCompletes(g: seq<Node>, s: State, i: nat, x: nat, l: nat)
    requires Inv(g, s) && Prepared(g) && UpwardClosed(g)
    requires i < |g| && Active(g, i) && g[i].marks.pendingDeps > 0 && s.pending[i] == 0
    requires l < |g| && Leaf(g, l) && x in g[i].waitsOn && Reach(g, x, l)
    ensures !Unscanned(s.main, l)
  {
    hide UpwardClosed, ClosedSubgraph, Mirrored, PendingOk, VisitedOk, QueueHolds, RemainingOk, StartedOk,
         ErrorsOk, MainWaits, MainLeft, QueueServed, ShutdownOk, JoinedOk, Hands, Succeeded;
    assert !s.phase[i].Waiting?;
    var k: nat :| ReachIn(g, x, l, k);
    BelowSucceeded(g, s, i, x, l, k);
    SucceededLeft(g, s, l);
  }

  lemma {:induction false} SafeRunIsClean(g: seq<Node>, s: State, acts: seq<Action>, t: State)
    requires Inv(g, s) && Prepared(g) && UpwardClosed(g) && SafeOrder(g) && Run(g, s, acts, t)
    ensures CleanRun(g, s, acts, t) && Inv(g, t)
    decreases |acts|
  {
    if acts != [] {
      hide Inv, Prepared, UpwardClosed, SafeOrder, InRange, Enabled, Clean, Apply;
      SafeSeedIsClean(g, s, acts[0]);
      StepKeepsInv(g, s, acts[0]);
      SafeRunIsClean(g, Apply(g, s, acts[0]), acts[1..], t);
    }
  }

  // ---- The condition is necessary: the scan as far as node t, then one worker draining the queue ----

  /** Every worker is back at the queue and nothing has failed. */
  predicate AllIdle(s: State) {
    !s.hasError && forall w | 0 <= w < |s.workers| :: s.workers[w].Popping?
  }

  lemma CleanAppend(g: seq<Node>, s: State, acts: seq<Action>, m: State, a: Action)
    requires CleanRun(g, s, acts, m) && InRange(g, m) && Enabled(g, m, a) && Clean(g, m, a)
    requires InRange(g, Apply(g, m, a))
    ensures CleanRun(g, s, acts + [a], Apply(g, m, a))
    decreases |acts|
  {
    if acts == [] {
      assert acts + [a] == [a] && [a][1..] == [];
      assert CleanRun(g, Apply(g, m, a), [], Apply(g, m, a));
    } else {
      hide InRange, Enabled, Clean, Apply;
      CleanAppend(g, Apply(g, s, acts[0]), acts[1..], m, a);
      assert (acts + [a])[1..] == acts[1..] + [a];
    }
  }

  lemma StartIdle(g: seq<Node>, n: nat)
    requires Prepared(g) && ActiveSet(g) != {} && n > 0
    ensures var s := Start(g, n); AllIdle(s) && s.main == Seeding(0) && CountersUntouched(g, s) && |s.workers| == n
  {
  }

  /** One turn of the scan in an idle state, in one or two steps. */
  lemma SeedIdle(g: seq<Node>, s: State, k: nat)
    requires InRange(g, s) && AllIdle(s) && s.main == Seeding(k) && CountersUntouched(g, s) && k < |g|
    ensures Enabled(g, s, Seed) && Clean(g, s, Seed)
    ensures var t := Apply(g, s, Seed);
            && AllIdle(t) && CountersUntouched(g, t) && |t.workers| == |s.workers| && t.started == s.started
            && (t.main == Seeding(k + 1) || t.main == SeedPush(k))
  {
  }

  lemma PushSeedIdle(g: seq<Node>, s: State, k: nat)
    requires InRange(g, s) && AllIdle(s) && s.main == SeedPush(k)
    ensures Enabled(g, s, PushSeed(None)) && Clean(g, s, PushSeed(None))
    ensures var t := Apply(g, s, PushSeed(None));
            && AllIdle(t) && t.pending == s.pending && |t.workers| == |s.workers| && t.main == Seeding(k + 1)
            && t.started == s.started
  {
  }

  /** The scan alone, up to node `k`. */
  lemma {:induction false} ScanTo(g: seq<Node>, n: nat, k: nat) returns (acts: seq<Action>, s: State)
    requires Prepared(g) && Fits(g) && ActiveSet(g) != {} && n > 0 && k <= |g|
    ensures CleanRun(g, Start(g, n), acts, s)
    ensures Inv(g, s) && AllIdle(s) && s.main == Seeding(k) && CountersUntouched(g, s) && |s.workers| == n
    ensures s.started == Start(g, n).started
    decreases k
  {
    hide Inv, InRange, Prepared, Fits, AllIdle, CountersUntouched, CleanRun, Start;
    if k == 0 {
      acts, s := [], Start(g, n);
      StartIdle(g, n);
      StartsInInv(g, n);
      InvRange(g, s);
      NoSteps(g, s);
    } else {
      acts, s := ScanTo(g, n, k - 1);
      acts, s := ScanOne(g, Start(g, n), acts, s, k - 1);
    }
  }

  lemma NoSteps(g: seq<Node>, s: State)
    requires InRange(g, s)
    ensures CleanRun(g, s, [], s)
  {
  }

  lemma ScanOne(g: seq<Node>, s0: State, acts0: seq<Action>, s: State, k: nat) returns (acts: seq<Action>, t: State)
    requires CleanRun(g, s0, acts0, s)
    requires Inv(g, s) && AllIdle(s) && s.main == Seeding(k) && CountersUntouched(g, s) && k < |g|
    ensures CleanRun(g, s0, acts, t)
    ensures Inv(g, t) && AllIdle(t) && t.main == Seeding(k + 1) && CountersUntouched(g, t) && |t.workers| == |s.workers|
    ensures t.started == s.started
  {
    hide Inv, InRange, AllIdle, Apply, Enabled, Clean, CleanRun;
    InvRange(g, s);
    SeedIdle(g, s, k);
    StepKeepsInv(g, s, Seed);
    t, acts := Apply(g, s, Seed), acts0 + [Seed];
    InvRange(g, t);
    CleanAppend(g, s0, acts0, s, Seed);
    if t.main == SeedPush(k) {
      var m := t;
      PushSeedIdle(g, m, k);
      StepKeepsInv(g, m, PushSeed(None));
      t := Apply(g, m, PushSeed(None));
      InvRange(g, t);
      CleanAppend(g, s0, acts, m, PushSeed(None));
      acts := acts + [PushSeed(None)];
    }
  }

  // ---- One worker drains the queue ----

  /** Worker 0 is somewhere inside a successful turn of its loop, everybody else is at the queue. */
  ghost predicate Draining(s: State, t: nat) {
    && !s.hasError && s.main == Seeding(t) && |s.workers| > 0
    && (forall w | 1 <= w < |s.workers| :: s.workers[w].Popping?)
    && var p := s.workers[0];
       p.Popping? || p.Checking? || p.Running? || p.Notifying? || p.Pushing? || p.Finishing?
  }

  function DrainAction(s: State): Action
    requires |s.workers| > 0
  {
    match s.workers[0]
    case Popping => Pop(0)
    case Checking(_) => Check(0)
    case Running(_) => Succeed(0)
    case Notifying(_, _) => Notify(0)
    case Pushing(_, _) => Push(0, None)
    case _ => Finish(0)
  }

  lemma DrainStep(g: seq<Node>, s: State, t: nat)
    requires InRange(g, s) && Draining(s, t) && !(s.workers[0].Popping? && s.ring.count == 0)
    ensures var a := DrainAction(s);
            && Enabled(g, s, a) && Clean(g, s, a) && !Spurious(a)
            && Draining(Apply(g, s, a), t) && |Apply(g, s, a).workers| == |s.workers|
  {
  }

  lemma {:induction false} Drain(g: seq<Node>, s0: State, acts0: seq<Action>, s: State, t: nat)
    returns (acts: seq<Action>, r: State)
    requires CleanRun(g, s0, acts0, s) && Inv(g, s) && Draining(s, t) && InRange(g, s)
    ensures CleanRun(g, s0, acts, r) && Inv(g, r)
    ensures AllIdle(r) && r.main == Seeding(t) && r.ring.count == 0
    decreases Measure(g, s)
  {
    hide Inv, InRange, Measure, CleanRun, Apply, Enabled, Clean;
    if s.workers[0].Popping? && s.ring.count == 0 {
      acts, r := acts0, s;
    } else {
      var a := DrainAction(s);
      DrainStep(g, s, t);
      StepUses(g, s, a);
      StepKeepsInv(g, s, a);
      CleanAppend(g, s0, acts0, s, a);
      acts, r := Drain(g, s0, acts0 + [a], Apply(g, s, a), t);
    }
  }

  // ---- The scan queues a completed node again ----

  /** In a drained state before node `t`, a dirty node without a leaf at or above `t` is done. */
  lemma DrainedIsDone(g: seq<Node>, s: State, t: nat, d: nat)
    requires Inv(g, s) && WellFormed(g) && Untangled(g)
    requires AllIdle(s) && s.main == Seeding(t) && s.ring.count == 0
    requires d < |g| == |s.phase| && Active(g, d)
    requires forall l: nat | l < |g| && Leaf(g, l) && Reach(g, d, l) :: l < t
    ensures s.phase[d].Done?
  {
    hide Inv, WellFormed, AllIdle, Reach, WaitsWithin, Untangled;
    IdlePhases(g, s, t, d);
    if s.phase[d].Waiting? {
      var c := set x: nat | x < |g| && Active(g, x) && s.phase[x].Waiting? && Reach(g, d, x);
      ReachSelf(g, d);
      assert d in c;
      forall x | x in c ensures WaitsWithin(g, c, x) { DrainedWaits(g, s, t, d, c, x); }
      assert Knot(g, c);
      NoKnot(g, c);
    }
  }

  /** A node that waits there waits for another one. */
  lemma DrainedWaits(g: seq<Node>, s: State, t: nat, d: nat, c: set<nat>, x: nat)
    requires Inv(g, s) && WellFormed(g)
    requires AllIdle(s) && s.main == Seeding(t) && s.ring.count == 0
    requires |s.phase| == |g| && d < |g|
    requires forall l: nat | l < |g| && Leaf(g, l) && Reach(g, d, l) :: l < t
    requires x < |g| && Active(g, x) && s.phase[x].Waiting? && Reach(g, d, x)
    requires forall m: nat | m < |g| && Active(g, m) && s.phase[m].Waiting? && Reach(g, d, m) :: m in c
    ensures WaitsWithin(g, c, x)
  {
    hide Inv, Mirrored, EdgesNamePaths, AllIdle, Reach;
    InvRange(g, s);
    IdlePhases(g, s, t, x);
    assert g[x].marks.pendingDeps > 0;
    var m := WaitsFor(g, s, x);
    IdlePhases(g, s, t, m);
    if s.phase[m].Done? { DoneOwesNothing(g, s, x, m); }
    ReachSelf(g, m);
    ReachVia(g, x, m, m);
    ReachTrans(g, d, x, m);
  }

  lemma IdlePhases(g: seq<Node>, s: State, t: nat, d: nat)
    requires Inv(g, s) && AllIdle(s) && s.main == Seeding(t) && s.ring.count == 0
    requires d < |g| && Active(g, d)
    ensures |s.phase| == |s.pending| == |s.started| == |g|
    ensures s.phase[d].Done? || s.phase[d].Waiting?
    ensures s.phase[d].Waiting? <==> if g[d].marks.pendingDeps > 0 then s.pending[d] > 0 else t <= d
    ensures s.phase[d].Done? ==> s.started[d] == 1
  {
    hide Ring.Contents, PendingOk, VisitedOk, RemainingOk, MainWaits, MainLeft, QueueServed, ShutdownOk, JoinedOk;
    assert forall w: nat | w < |s.workers| :: V(g, s, w) == Ownership.Idle;
    if s.phase[d].Queued? { assert d in s.ring.Contents(); EmptyContents(s.ring); }
  }

  /** Four more steps start the completed node `t` again: seed, push, pop, check. */
  lemma SecondStart(g: seq<Node>, s0: State, acts0: seq<Action>, s: State, t: nat)
    returns (acts: seq<Action>, r: State)
    requires Run(g, s0, acts0, s) && InRange(g, s) && AllIdle(s) && |s.workers| > 0
    requires s.main == Seeding(t) && s.ring.count == 0 && s.ring.Valid()
    requires t < |g| && Active(g, t) && s.pending[t] == 0 && s.started[t] == 1
    ensures Run(g, s0, acts, r) && InRange(g, r) && r.started[t] == 2
  {
    acts := [Seed, PushSeed(None), Pop(0), Check(0)];
    var a := Apply(g, s, Seed);
    var b := SeededAgain(g, s, t);
    var c := Apply(g, b, Pop(0));
    StepKeepsRange(g, b, Pop(0));
    r := Apply(g, c, Check(0));
    StepKeepsRange(g, c, Check(0));
    hide Apply, Enabled, InRange, AllIdle;
    RunStep(g, c, Check(0), [], r);
    RunStep(g, b, Pop(0), [Check(0)], r);
    RunStep(g, a, PushSeed(None), [Pop(0), Check(0)], r);
    RunStep(g, s, Seed, [PushSeed(None), Pop(0), Check(0)], r);
    RunAppend(g, s0, acts0, s, acts, r);
    acts := acts0 + acts;
  }

  /** The seed scan pushes the completed node `t`. */
  lemma SeededAgain(g: seq<Node>, s: State, t: nat) returns (b: State)
    requires InRange(g, s) && AllIdle(s) && |s.workers| > 0 && !s.hasError
    requires s.main == Seeding(t) && s.ring.count == 0 && s.ring.Valid()
    requires t < |g| && Active(g, t) && s.pending[t] == 0
    ensures Enabled(g, s, Seed) && InRange(g, Apply(g, s, Seed)) && Enabled(g, Apply(g, s, Seed), PushSeed(None))
    ensures b == Apply(g, Apply(g, s, Seed), PushSeed(None)) && InRange(g, b)
    ensures b.workers == s.workers && b.started == s.started && !b.hasError
    ensures b.main == Seeding(t + 1) && b.remaining == s.remaining && b.shutdown == s.shutdown
    ensures b.ring.count == 1 && b.ring.head < |b.ring.buffer| && b.ring.Front() == t
  {
    var a := Apply(g, s, Seed);
    StepKeepsRange(g, s, Seed);
    b := Apply(g, a, PushSeed(None));
    StepKeepsRange(g, a, PushSeed(None));
    PushContents(a.ring, t);
    PopContents(b.ring);
    assert b.ring.Contents()[0] == t;
  }

  lemma RunStep(g: seq<Node>, s: State, a: Action, rest: seq<Action>, r: State)
    requires InRange(g, s) && Enabled(g, s, a)
    requires rest == [] ==> Apply(g, s, a) == r && InRange(g, r)
    requires rest != [] ==> Run(g, Apply(g, s, a), rest, r)
    ensures Run(g, s, [a] + rest, r)
  {
    assert ([a] + rest)[1..] == rest;
  }

  lemma {:induction false} CleanIsRun(g: seq<Node>, s: State, acts: seq<Action>, t: State)
    requires CleanRun(g, s, acts, t)
    ensures Run(g, s, acts, t)
    decreases |acts|
  {
    hide InRange, Enabled, Clean, Apply;
    if acts != [] { CleanIsRun(g, Apply(g, s, acts[0]), acts[1..], t); }
  }

  /** A node that is ready before the scan reaches it is started twice in some run, with any number of workers. */
  lemma UnsafeNodeStartsTwice(g: seq<Node>, n: nat, t: nat) returns (acts: seq<Action>, r: State)
    requires Prepared(g) && Fits(g) && Untangled(g) && n > 0
    requires t < |g| && Active(g, t) && g[t].marks.pendingDeps > 0 && !SeededLater(g, t)
    ensures t in ActiveSet(g)
    ensures Run(g, Start(g, n), acts, r) && InRange(g, r) && r.started[t] == 2
  {
    hide CleanRun, Run, Measure, AllIdle, Start, Fits, Apply, Inv, Clean;
    assert t in ActiveSet(g);
    var s;
    acts, s := ScanTo(g, n, t);
    InvRange(g, s);
    IdleDrains(s, t);
    acts, s := Drain(g, Start(g, n), acts, s, t);
    InvRange(g, s);
    DrainedIsReady(g, s, t);
    CleanIsRun(g, Start(g, n), acts, s);
    acts, r := SecondStart(g, Start(g, n), acts, s, t);
  }

  lemma IdleDrains(s: State, t: nat)
    requires AllIdle(s) && s.main == Seeding(t) && |s.workers| > 0
    ensures Draining(s, t)
  {
  }

  lemma DrainedIsReady(g: seq<Node>, s: State, t: nat)
    requires Inv(g, s) && WellFormed(g) && Untangled(g)
    requires AllIdle(s) && s.main == Seeding(t) && s.ring.count == 0
    requires t < |g| && Active(g, t) && g[t].marks.pendingDeps > 0 && !SeededLater(g, t)
    ensures |s.pending| == |s.started| == |g| && |s.workers| > 0 && s.ring.Valid()
    ensures s.pending[t] == 0 && s.started[t] == 1
  {
    hide Ring.Contents, Ring.Valid, ErrorsOk, PendingOk, VisitedOk, RemainingOk, MainWaits, MainLeft, QueueServed,
         ShutdownOk, JoinedOk, Holders, Hands, WaitingOk, StartedOk, Untangled, Mirrored, EdgesNamePaths;
    IdlePhases(g, s, t, t);
    LeavesBefore(g, t);
    DrainedIsDone(g, s, t, t);
  }

  lemma LeavesBefore(g: seq<Node>, t: nat)
    requires t < |g| && g[t].marks.pendingDeps > 0 && !SeededLater(g, t)
    ensures forall l: nat | l < |g| && Leaf(g, l) && Reach(g, t, l) :: l < t
  {
    hide Reach;
    forall l: nat | l < |g| && Leaf(g, l) && Reach(g, t, l)
      ensures l < t
    {
      assert l != t;
    }
  }

  /** No node is ever processed twice, in any run with any interleaving, exactly if the graph is in safe order.  This
      counts the stages of nodes without a builder too. */
  lemma StartedOnceIff(g: seq<Node>, n: nat)
    requires Prepared(g) && Fits(g) && Untangled(g) && UpwardClosed(g) && ActiveSet(g) != {} && n > 0
    ensures SafeOrder(g) <==>
      forall acts: seq<Action>, r: State, d: nat |
        Run(g, Start(g, n), acts, r) && d < |g| && d < |r.started| :: r.started[d] <= 1
  {
    hide Prepared, Fits, Untangled, UpwardClosed, Run, Inv, Start;
    if SafeOrder(g) {
      forall acts: seq<Action>, r: State, d: nat | Run(g, Start(g, n), acts, r) && d < |g| && d < |r.started|
        ensures r.started[d] <= 1
      {
        StartsInInv(g, n);
        SafeRunIsClean(g, Start(g, n), acts, r);
        StartedAtMostOnce(g, r, d);
      }
    } else {
      var t: nat :| t < |g| && Active(g, t) && g[t].marks.pendingDeps > 0 && !SeededLater(g, t);
      var acts, r := UnsafeNodeStartsTwice(g, n, t);
      assert Run(g, Start(g, n), acts, r) && !(r.started[t] <= 1);
    }
  }

  lemma StartedAtMostOnce(g: seq<Node>, s: State, d: nat)
    requires Inv(g, s) && d < |g|
    ensures d < |s.started| && s.started[d] <= 1
  {
  }

  // ---- Builders ----

  /** The builder of `d` has been called more than once: only nodes that have one count. */
  ghost predicate CalledTwice(g: seq<Node>, s: State, d: nat) {
    d < |g| && d < |s.started| && CanFail(g[d]) && s.started[d] > 1
  }

  /** Whatever breaks the safe order has a builder. */
  ghost predicate UnsafeHaveBuilders(g: seq<Node>) {
    forall d: nat | d < |g| && Active(g, d) && g[d].marks.pendingDeps > 0 && !SeededLater(g, d) :: CanFail(g[d])
  }

  lemma UnsafeBuilderCalledTwice(g: seq<Node>, n: nat, t: nat) returns (acts: seq<Action>, r: State)
    requires Prepared(g) && Fits(g) && Untangled(g) && n > 0
    requires t < |g| && Active(g, t) && g[t].marks.pendingDeps > 0 && !SeededLater(g, t) && CanFail(g[t])
    ensures t in ActiveSet(g) && Run(g, Start(g, n), acts, r) && CalledTwice(g, r, t)
  {
    hide Prepared, Fits, Untangled, Run, Start, Reach, InRange;
    acts, r := UnsafeNodeStartsTwice(g, n, t);
    InRangeStarted(g, r);
  }

  lemma InRangeStarted(g: seq<Node>, r: State)
    requires InRange(g, r)
    ensures |r.started| == |g|
  {
  }

  /** In safe order no builder is called twice; and where each node that breaks the order has a builder, only then. */
  lemma BuilderCalledOnceIff(g: seq<Node>, n: nat)
    requires Prepared(g) && Fits(g) && Untangled(g) && UpwardClosed(g) && ActiveSet(g) != {} && n > 0
    ensures SafeOrder(g) ==>
      forall acts: seq<Action>, r: State, d: nat | Run(g, Start(g, n), acts, r) :: !CalledTwice(g, r, d)
    ensures UnsafeHaveBuilders(g) && !SafeOrder(g) ==>
      exists acts: seq<Action>, r: State, d: nat :: Run(g, Start(g, n), acts, r) && CalledTwice(g, r, d)
  {
    hide Prepared, Fits, Untangled, UpwardClosed, Run, Inv, Start;
    if SafeOrder(g) {
      StartedOnceIff(g, n);
    } else if UnsafeHaveBuilders(g) {
      var t: nat :| t < |g| && Active(g, t) && g[t].marks.pendingDeps > 0 && !SeededLater(g, t);
      var acts, r := UnsafeBuilderCalledTwice(g, n, t);
    }
  }

  // ---- The order of declaration ----

  /** Every node was created before its inputs, as when outputs are declared before what they are made from. */
  ghost predicate DeclaredTopDown(g: seq<Node>) {
    forall d: nat, m: nat | d < |g| && m in g[d].waitsOn :: d < m
  }

  /** Every node was created after its inputs. */
  ghost predicate DeclaredBottomUp(g: seq<Node>) {
    forall d: nat, m: nat | d < |g| && m in g[d].waitsOn :: m < d
  }

  lemma {:induction false} SomeDirty(g: seq<Node>, ids: seq<nat>) returns (m: nat)
    requires (forall k | 0 <= k < |ids| :: ids[k] < |g|) && DirtyAmong(g, ids) > 0
    ensures m in ids && m < |g| && g[m].marks.isDirty
    decreases |ids|
  {
    var last := ids[|ids| - 1];
    if g[last].marks.isDirty { m := last; } else { m := SomeDirty(g, ids[..|ids| - 1]); }
  }

  /** A dirty node with dirty inputs has one that is in the run itself. */
  lemma ActiveInput(g: seq<Node>, d: nat) returns (m: nat)
    requires Prepared(g) && d < |g| && Active(g, d) && g[d].marks.pendingDeps > 0
    ensures m in g[d].waitsOn && m < |g| && Active(g, m)
  {
    hide Mirrored, EdgesNamePaths;
    m := SomeDirty(g, g[d].waitsOn);
  }

  /** Declaring outputs first is safe. */
  lemma TopDownIsSafe(g: seq<Node>)
    requires Prepared(g) && DeclaredTopDown(g)
    ensures SafeOrder(g)
  {
    forall d: nat | d < |g| && Active(g, d) && g[d].marks.pendingDeps > 0
      ensures SeededLater(g, d)
    {
      hide Prepared, DeclaredTopDown, Reach;
      LaterLeaf(g, d);
    }
  }

  lemma {:induction false} LaterLeaf(g: seq<Node>, d: nat)
    requires Prepared(g) && DeclaredTopDown(g) && d < |g| && Active(g, d) && g[d].marks.pendingDeps > 0
    ensures SeededLater(g, d)
    decreases |g| - d
  {
    var m := ActiveInput(g, d);
    assert d < m;
    hide Prepared, DeclaredTopDown, Reach;
    var l: nat;
    if g[m].marks.pendingDeps == 0 {
      l := m;
      ReachSelf(g, m);
    } else {
      LaterLeaf(g, m);
      l :| l < |g| && Leaf(g, l) && Reach(g, m, l) && m < l;
    }
    ReachVia(g, d, m, l);
  }

  lemma NotSeededLater(g: seq<Node>, d: nat)
    requires DeclaredBottomUp(g)
    ensures !SeededLater(g, d)
  {
    if SeededLater(g, d) {
      var l: nat :| l < |g| && Leaf(g, l) && Reach(g, d, l) && d < l;
      var k: nat :| ReachIn(g, d, l, k);
      ReachesDown(g, d, l, k);
    }
  }

  /** Declaring inputs first is not, as soon as one dirty node waits for another. */
  lemma BottomUpIsUnsafe(g: seq<Node>, d: nat)
    requires DeclaredBottomUp(g) && d < |g| && Active(g, d) && g[d].marks.pendingDeps > 0
    ensures !SafeOrder(g)
  {
    NotSeededLater(g, d);
  }

  lemma {:induction false} ReachesDown(g: seq<Node>, a: nat, b: nat, k: nat)
    requires DeclaredBottomUp(g) && ReachIn(g, a, b, k)
    ensures b <= a
    decreases k
  {
    if k > 0 {
      var m :| m in g[a].waitsOn && ReachIn(g, m, b, k - 1);
      ReachesDown(g, m, b, k - 1);
    }
  }
}
