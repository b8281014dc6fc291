/** What the race of the seed scan can lead to: a build that hangs for ever, and a graph of two targets where it
    does. */
module RaceExamples {
  import opened Basics
  import opened Graphs
  import opened Plans
  import opened TaskQueues
  import opened Schedulers
  import opened Ownership
  import opened Counting
  import opened CoreInvariant
  import opened Steps
  import opened WaitingInvariant
  import opened RunTheorems
  import opened TerminationTheorems
  import opened Knots
  import opened SeedRace

  // ---- The build that hangs ----

  /** The dirty node with the highest id waits for something, and nothing dirty waits for it: as the topmost target does
      when it is declared last. */
  ghost predicate LastWaits(g: seq<Node>, t: nat) {
    && t < |g| && Active(g, t) && g[t].marks.pendingDeps > 0
    && (forall d: nat | d < |g| && Active(g, d) :: d <= t)
    && (forall x: nat | x in g[t].dependents && x < |g| :: !Active(g, x))
  }

  /** Nobody is awake and nothing is broadcast any more, but main has not returned. */
  ghost predicate Hung(s: State) {
    s.main.MainAsleep? && forall w | 0 <= w < |s.workers| :: s.workers[w].Asleep?
  }

  /** Only a spurious wake-up gets out of it. */
  lemma HungIsStuck(g: seq<Node>, s: State)
    requires Hung(s)
    ensures !CanStep(g, s)
  {
  }

  /** All dirty nodes are done, and worker 0 is at `p`, everybody else at the queue, which is empty. */
  ghost predicate Replaying(g: seq<Node>, s: State, m: Main, p: Worker, remaining: nat) {
    && InRange(g, s) && !s.hasError && !s.shutdown && s.main == m && s.remaining == remaining
    && s.ring.count == 0 && |s.workers| > 0 && s.workers[0] == p
    && forall w | 1 <= w < |s.workers| :: s.workers[w].Popping?
  }

  lemma RunExtend(g: seq<Node>, s: State, acts: seq<Action>, m: State, a: Action)
    requires Run(g, s, acts, m) && InRange(g, m) && Enabled(g, m, a)
    ensures InRange(g, Apply(g, m, a)) && Run(g, s, acts + [a], Apply(g, m, a))
  {
    StepKeepsRange(g, m, a);
    hide InRange, Enabled, Apply;
    RunStep(g, m, a, [], Apply(g, m, a));
    assert [a] + [] == [a];
    RunAppend(g, s, acts, m, [a], Apply(g, m, a));
  }

  /** When the scan reaches the last node, everything is done. */
  lemma DrainedIsOver(g: seq<Node>, s: State, t: nat)
    requires Inv(g, s) && WellFormed(g) && Untangled(g) && LastWaits(g, t)
    requires AllIdle(s) && s.main == Seeding(t) && s.ring.count == 0
    ensures |s.pending| == |g| && s.pending[t] == 0 && s.remaining == 0
  {
    hide Inv, WellFormed, Untangled, AllIdle, Reach;
    forall d: nat | d < |g| && Active(g, d)
      ensures |s.phase| == |g| && s.phase[d].Done?
    {
      IdlePhases(g, s, t, d);
      DrainedIsDone(g, s, t, d);
    }
    IdlePhases(g, s, t, t);
    AllDoneLeavesNothing(g, s);
  }

  lemma AllDoneLeavesNothing(g: seq<Node>, s: State)
    requires Inv(g, s) && |s.phase| == |g|
    requires forall d: nat | d < |g| && Active(g, d) :: s.phase[d].Done?
    ensures s.remaining == 0
  {
    hide Owned, VisitedOk, PendingOk, StartedOk, ErrorsOk, MainWaits, MainLeft, QueueServed, ShutdownOk, JoinedOk;
    assert Undone(g, s.phase) == {};
  }

  /** The scan queues the completed node `t` again, and worker 0 starts it. */
  lemma ReplayBegins(g: seq<Node>, s0: State, acts0: seq<Action>, s: State, t: nat)
    returns (acts: seq<Action>, r: State)
    requires Run(g, s0, acts0, s) && InRange(g, s) && AllIdle(s) && |s.workers| > 0 && !s.shutdown
    requires s.main == Seeding(t) && s.ring.count == 0 && s.ring.Valid() && s.remaining == 0
    requires t < |g| && Active(g, t) && s.pending[t] == 0
    ensures Run(g, s0, acts, r) && Replaying(g, r, Seeding(t + 1), Running(t), 0)
  {
    hide Run, Apply, Enabled, InRange;
    var b := SeededAgain(g, s, t);
    RunExtend(g, s0, acts0, s, Seed);
    RunExtend(g, s0, acts0 + [Seed], Apply(g, s, Seed), PushSeed(None));
    acts := acts0 + [Seed] + [PushSeed(None)];
    var c := ReplayPops(g, b, t);
    RunExtend(g, s0, acts, b, Pop(0));
    acts := acts + [Pop(0)];
    r := ReplayChecks(g, c, t);
    RunExtend(g, s0, acts, c, Check(0));
    acts := acts + [Check(0)];
  }

  lemma ReplayPops(g: seq<Node>, b: State, t: nat) returns (c: State)
    requires InRange(g, b) && AllIdle(b) && |b.workers| > 0 && !b.shutdown && b.main == Seeding(t + 1)
    requires b.remaining == 0 && b.ring.count == 1 && b.ring.head < |b.ring.buffer| && b.ring.Front() == t
    ensures Enabled(g, b, Pop(0)) && c == Apply(g, b, Pop(0))
    ensures Replaying(g, c, Seeding(t + 1), Checking(t), 0)
  {
    c := Apply(g, b, Pop(0));
    StepKeepsRange(g, b, Pop(0));
  }

  lemma ReplayChecks(g: seq<Node>, c: State, t: nat) returns (r: State)
    requires Replaying(g, c, Seeding(t + 1), Checking(t), 0)
    ensures Enabled(g, c, Check(0)) && r == Apply(g, c, Check(0))
    ensures Replaying(g, r, Seeding(t + 1), Running(t), 0)
  {
    r := Apply(g, c, Check(0));
    StepKeepsRange(g, c, Check(0));
  }

  /** What worker 0 does next with the node of which no dependent is dirty. */
  function ReplayAction(p: Worker): Action {
    match p
    case Running(_) => Succeed(0)
    case Notifying(_, _) => Notify(0)
    case _ => Finish(0)
  }

  function ReplayNext(g: seq<Node>, p: Worker): Worker {
    match p
    case Running(d) => Notifying(d, 0)
    case Notifying(d, i) => if d < |g| && i < |g[d].dependents| then Notifying(d, i + 1) else Finishing(d)
    case _ => Popping
  }

  function StepsLeft(dependents: nat, p: Worker): int {
    match p
    case Running(_) => dependents + 2
    case Notifying(_, i) => dependents + 1 - i
    case _ => 0
  }

  lemma ReplayStep(g: seq<Node>, s: State, t: nat, m: Main, p: Worker)
    requires LastWaits(g, t) && Replaying(g, s, m, p, 0) && m.Seeding?
    requires p == Running(t) || (p.Notifying? && p.node == t) || p == Finishing(t)
    ensures Enabled(g, s, ReplayAction(p))
    ensures Replaying(g, Apply(g, s, ReplayAction(p)), m, ReplayNext(g, p), if p.Finishing? then U64 - 1 else 0)
  {
    StepKeepsRange(g, s, ReplayAction(p));
  }

  lemma {:induction false} Replay(g: seq<Node>, s0: State, acts0: seq<Action>, s: State, t: nat, m: Main, p: Worker)
    returns (acts: seq<Action>, r: State)
    requires LastWaits(g, t) && Run(g, s0, acts0, s) && Replaying(g, s, m, p, 0) && m.Seeding?
    requires p == Running(t) || (p.Notifying? && p.node == t && p.i <= |g[t].dependents|) || p == Finishing(t)
    ensures Run(g, s0, acts, r) && Replaying(g, r, m, Popping, U64 - 1)
    decreases StepsLeft(|g[t].dependents|, p)
  {
    hide LastWaits, Run, Replaying, InRange, Apply, Enabled;
    LastIsThere(g, t);
    ReplayInRange(g, s, m, p, 0);
    var a := ReplayAction(p);
    ReplayStep(g, s, t, m, p);
    RunExtend(g, s0, acts0, s, a);
    if p.Finishing? {
      acts, r := acts0 + [a], Apply(g, s, a);
    } else {
      acts, r := Replay(g, s0, acts0 + [a], Apply(g, s, a), t, m, ReplayNext(g, p));
    }
  }

  lemma LastIsThere(g: seq<Node>, t: nat)
    requires LastWaits(g, t)
    ensures t < |g| && Active(g, t) && g[t].marks.pendingDeps > 0
  {
  }

  lemma ReplayInRange(g: seq<Node>, s: State, m: Main, p: Worker, remaining: nat)
    requires Replaying(g, s, m, p, remaining)
    ensures InRange(g, s)
  {
  }

  // ---- Everybody goes to sleep ----

  /** The first `k` workers are asleep, the others at the queue; `remaining_dirty` has wrapped around. */
  ghost predicate Retiring(g: seq<Node>, s: State, m: Main, k: nat) {
    && InRange(g, s) && !s.hasError && !s.shutdown && s.main == m && s.remaining == U64 - 1
    && s.ring.count == 0 && k <= |s.workers|
    && (forall w | 0 <= w < k :: s.workers[w].Asleep?)
    && forall w | k <= w < |s.workers| :: s.workers[w].Popping?
  }

  lemma RetireStep(g: seq<Node>, s: State, m: Main, k: nat)
    requires Retiring(g, s, m, k) && k < |s.workers|
    ensures Enabled(g, s, Pop(k)) && Retiring(g, Apply(g, s, Pop(k)), m, k + 1)
    ensures |Apply(g, s, Pop(k)).workers| == |s.workers|
  {
    StepKeepsRange(g, s, Pop(k));
  }

  lemma {:induction false} Retire(g: seq<Node>, s0: State, acts0: seq<Action>, s: State, m: Main, k: nat)
    returns (acts: seq<Action>, r: State)
    requires Run(g, s0, acts0, s) && Retiring(g, s, m, k)
    ensures Run(g, s0, acts, r) && Retiring(g, r, m, |r.workers|)
    decreases |s.workers| - k
  {
    hide Run, InRange, Apply, Enabled;
    if k == |s.workers| {
      acts, r := acts0, s;
    } else {
      RetireStep(g, s, m, k);
      RunExtend(g, s0, acts0, s, Pop(k));
      acts, r := Retire(g, s0, acts0 + [Pop(k)], Apply(g, s, Pop(k)), m, k + 1);
    }
  }

  function MainAction(m: Main): Action {
    match m
    case Seeding(_) => Seed
    case Locking => Lock
    case Testing => Test
    case _ => Commit
  }

  function MainNext(nodes: nat, m: Main): Main {
    match m
    case Seeding(i) => if i < nodes then Seeding(i + 1) else Locking
    case Locking => Testing
    case Testing => Committing
    case _ => MainAsleep
  }

  function MainStepsLeft(nodes: nat, m: Main): int {
    match m
    case Seeding(i) => nodes - i + 4
    case Locking => 3
    case Testing => 2
    case Committing => 1
    case _ => 0
  }

  /** Main's way from the scan past the last dirty node to its sleep. */
  lemma MainStep(g: seq<Node>, s: State, t: nat)
    requires LastWaits(g, t) && Retiring(g, s, s.main, |s.workers|)
    requires (s.main.Seeding? && t < s.main.i <= |g|) || s.main.Locking? || s.main.Testing? || s.main.Committing?
    ensures Enabled(g, s, MainAction(s.main))
    ensures var r := Apply(g, s, MainAction(s.main));
            Retiring(g, r, r.main, |r.workers|) && r.main == MainNext(|g|, s.main)
  {
    StepKeepsRange(g, s, MainAction(s.main));
  }

  lemma {:induction false} MainRetires(g: seq<Node>, s0: State, acts0: seq<Action>, s: State, t: nat)
    returns (acts: seq<Action>, r: State)
    requires LastWaits(g, t) && Run(g, s0, acts0, s) && Retiring(g, s, s.main, |s.workers|)
    requires (s.main.Seeding? && t < s.main.i <= |g|) || s.main.Locking? || s.main.Testing? || s.main.Committing?
             || s.main.MainAsleep?
    ensures Run(g, s0, acts, r) && Hung(r)
    decreases MainStepsLeft(|g|, s.main)
  {
    if s.main.MainAsleep? {
      acts, r := acts0, s;
    } else {
      hide LastWaits, Run, InRange, Apply, Enabled;
      var a := MainAction(s.main);
      MainStep(g, s, t);
      RunExtend(g, s0, acts0, s, a);
      acts, r := MainRetires(g, s0, acts0 + [a], Apply(g, s, a), t);
    }
  }

  /** If the topmost dirty node was declared last, some run never returns: the second completion takes `remaining_dirty`
      from 0 to its maximum, and main goes to sleep with all its workers. */
  lemma LastNodeHangs(g: seq<Node>, n: nat, t: nat) returns (acts: seq<Action>, r: State)
    requires Prepared(g) && Fits(g) && Untangled(g) && LastWaits(g, t) && n > 0
    ensures t in ActiveSet(g)
    ensures Run(g, Start(g, n), acts, r) && Hung(r) && !CanStep(g, r)
  {
    hide CleanRun, Run, Measure, AllIdle, Start, Fits, Apply, Inv, Clean, LastWaits, Untangled, Hung, CanStep, InRange,
         Replaying, Retiring, Mirrored, EdgesNamePaths, ClosedSubgraph, PendingCounted, Draining;
    LastIsThere(g, t);
    assert t in ActiveSet(g);
    var s;
    acts, s := ScanTo(g, n, t);
    InvRange(g, s);
    IdleDrains(s, t);
    acts, s := Drain(g, Start(g, n), acts, s, t);
    InvRange(g, s);
    DrainedIsOver(g, s, t);
    DrainedFacts(g, s, t);
    CleanIsRun(g, Start(g, n), acts, s);
    acts, r := ReplayBegins(g, Start(g, n), acts, s, t);
    acts, r := Replay(g, Start(g, n), acts, r, t, Seeding(t + 1), Running(t));
    ReplayRetires(g, r, Seeding(t + 1));
    acts, r := Retire(g, Start(g, n), acts, r, Seeding(t + 1), 0);
    RetiringMain(g, r, Seeding(t + 1));
    acts, r := MainRetires(g, Start(g, n), acts, r, t);
    HungIsStuck(g, r);
  }

  lemma DrainedFacts(g: seq<Node>, s: State, t: nat)
    requires Inv(g, s) && s.main == Seeding(t)
    ensures |s.workers| > 0 && s.ring.Valid() && !s.shutdown
  {
    hide Holders, Hands, WaitingOk, PendingOk, VisitedOk, StartedOk, RemainingOk, ErrorsOk, MainWaits, MainLeft,
         QueueServed, JoinedOk;
  }

  lemma ReplayRetires(g: seq<Node>, s: State, m: Main)
    requires Replaying(g, s, m, Popping, U64 - 1)
    ensures Retiring(g, s, m, 0)
  {
  }

  lemma RetiringMain(g: seq<Node>, s: State, m: Main)
    requires Retiring(g, s, m, |s.workers|)
    ensures s.main == m
  {
  }

  // ---- Two targets ----

  /** Two targets, the lower one declared first, both dirty, as the planner leaves them. */
  const TwoTargets: seq<Node> := [
    Node(Decl("lib.o", [], [], Some(0), true, false, true), [1], [], Marks(true, true, true, 0)),
    Node(Decl("app", ["lib.o"], [], Some(1), true, false, true), [], [0], Marks(true, true, true, 1))]

  /** What matters about them. */
  ghost predicate IsPair(g: seq<Node>) {
    && |g| == 2
    && g[0].waitsOn == [] && g[0].dependents == [1] && g[0].marks == Marks(true, true, true, 0)
    && g[1].waitsOn == [0] && g[1].dependents == [] && g[1].marks == Marks(true, true, true, 1)
    && g[0].decl.sources == g[0].decl.deps == g[1].decl.deps == [] && g[1].decl.sources == [g[0].decl.output]
    && g[0].decl.isTarget && g[1].decl.isTarget
  }

  lemma PairIsMirrored(g: seq<Node>)
    requires IsPair(g)
    ensures Mirrored(g)
  {
    forall d: nat, t: nat | d < |g| && t < |g|
      ensures multiset(g[d].dependents)[t] == multiset(g[t].waitsOn)[d]
    {
      assert multiset([1])[t] == (if t == 1 then 1 else 0) && multiset([0])[d] == (if d == 0 then 1 else 0);
      assert d == 0 || d == 1;
      assert t == 0 || t == 1;
    }
  }

  lemma PairIsClosed(g: seq<Node>)
    requires IsPair(g)
    ensures IdsInRange(g) && ClosedSubgraph(g) && UpwardClosed(g)
  {
  }

  lemma PairShape(g: seq<Node>)
    requires IsPair(g)
    ensures Fits(g) && DeclaredBottomUp(g) && Ranked(g, [0, 1])
    ensures 1 in ActiveSet(g) && g[1].marks.pendingDeps > 0
  {
    assert Active(g, 1);
  }

  lemma PairNamesPaths(g: seq<Node>)
    requires IsPair(g) && IdsInRange(g)
    ensures EdgesNamePaths(g)
  {
    forall t | 0 <= t < |g|
      ensures Outputs(g, g[t].waitsOn) == g[t].decl.sources + g[t].decl.deps
    {
    }
  }

  lemma PairIsCounted(g: seq<Node>)
    requires IsPair(g) && IdsInRange(g)
    ensures PendingCounted(g)
  {
    assert [0][..0] == [];
    assert DirtyAmong(g, []) == 0 && DirtyAmong(g, [0]) == 1;
  }

  lemma TwoTargetsArePair()
    ensures IsPair(TwoTargets)
  {
  }

  lemma PairIsPrepared(g: seq<Node>)
    requires IsPair(g)
    ensures Prepared(g) && UpwardClosed(g) && Fits(g) && Acyclic(g) && DeclaredBottomUp(g)
    ensures 1 in ActiveSet(g) && g[1].marks.pendingDeps > 0
  {
    hide IsPair, Mirrored, ClosedSubgraph, UpwardClosed, EdgesNamePaths, PendingCounted, IdsInRange, Ranked, Fits,
         DeclaredBottomUp, ActiveSet;
    PairIsMirrored(g);
    PairIsClosed(g);
    PairNamesPaths(g);
    PairIsCounted(g);
    PairShape(g);
  }

  /** So the race is real: some run of this build calls a builder twice. */
  lemma TwoTargetsRace(n: nat) returns (acts: seq<Action>, r: State)
    requires n > 0
    ensures ActiveSet(TwoTargets) != {}
    ensures Run(TwoTargets, Start(TwoTargets, n), acts, r) && 1 < |r.started| && r.started[1] == 2
  {
    var g := TwoTargets;
    TwoTargetsArePair();
    PairIsPrepared(g);
    AcyclicIsUntangled(g);
    assert Active(g, 1);
    acts, r := BottomUpRaces(g, n, 1);
  }

  /** And another run of it never returns. */
  lemma TwoTargetsHang(n: nat) returns (acts: seq<Action>, r: State)
    requires n > 0
    ensures ActiveSet(TwoTargets) != {}
    ensures Run(TwoTargets, Start(TwoTargets, n), acts, r) && !r.main.Returned? && !CanStep(TwoTargets, r)
  {
    var g := TwoTargets;
    TwoTargetsArePair();
    PairIsPrepared(g);
    PairLastWaits(g);
    AcyclicIsUntangled(g);
    hide Prepared, Untangled, Fits, Run, Start, LastWaits, CanStep, ActiveSet;
    acts, r := LastNodeHangs(g, n, 1);
    assert 1 in ActiveSet(g);
  }

  lemma PairLastWaits(g: seq<Node>)
    requires IsPair(g)
    ensures LastWaits(g, 1)
  {
    assert Active(g, 1);
  }

  lemma BottomUpRaces(g: seq<Node>, n: nat, d: nat) returns (acts: seq<Action>, r: State)
    requires Prepared(g) && Fits(g) && Untangled(g) && DeclaredBottomUp(g) && n > 0
    requires d < |g| && Active(g, d) && g[d].marks.pendingDeps > 0
    ensures d in ActiveSet(g)
    ensures Run(g, Start(g, n), acts, r) && d < |r.started| && r.started[d] == 2
  {
    hide Prepared, Untangled, Fits, Run, Start, Reach, InRange;
    NotSeededLater(g, d);
    acts, r := UnsafeNodeStartsTwice(g, n, d);
    InRangeStarted(g, r);
  }
}
