/** Every step but a spurious wake-up uses up some of a finite measure, and unless dirty nodes wait for each other in a
    cycle some step is always possible until `zmm_bg_exec` returns. */
module TerminationTheorems {
  import opened Basics
  import opened Graphs
  import opened Plans
  import opened TaskQueues
  import opened Schedulers
  import opened Ownership
  import opened Counting
  import opened CoreInvariant
  import opened Steps
  import opened WaitingInvariant
  import opened RunTheorems
  import opened Knots

  predicate Spurious(a: Action) {
    a.SpuriousWorker? || a.SpuriousMain?
  }

  // ---- The measure ----

  /** The steps a node still needs once it is in the queue. */
  function Work(g: seq<Node>, d: nat): nat
    requires d < |g|
  {
    8 + 2 * |g[d].dependents|
  }

  function PhaseWeight(g: seq<Node>, d: nat, p: Phase): nat
    requires d < |g|
  {
    match p
    case Waiting => Work(g, d) + 1
    case HandOfMain => Work(g, d) + 1
    case HandOf(_) => Work(g, d) + 1
    case Queued => Work(g, d)
    case _ => 0
  }

  ghost function WorkerWeight(g: seq<Node>, p: Worker): nat
    requires WorkerInRange(g, p)
  {
    match p
    case Popping => 1
    case Asleep => 0
    case Checking(d) => Work(g, d)
    case Running(d) => Work(g, d) - 1
    case Failing => 6
    case Signalling => 5
    case Notifying(d, i) => 6 + 2 * (|g[d].dependents| - i)
    case Pushing(d, i) => 5 + 2 * (|g[d].dependents| - i)
    case Finishing(_) => 5
    case Exited => 0
  }

  function MainWeight(nodes: nat, workers: nat, m: Main): int {
    match m
    case Seeding(i) => 2 * workers + 9 + 2 * (nodes - i)
    case SeedPush(i) => 2 * workers + 8 + 2 * (nodes - i)
    case Locking => 2 * workers + 7
    case Testing => 2 * workers + 6
    case Committing => 2 * workers + 5
    case MainAsleep => 2 * workers + 4
    case ShuttingDown => 2 * workers + 3
    case Joining(w) => workers - w + 1
    case Returned(_) => 0
  }

  ghost function PhaseSum(g: seq<Node>, phase: seq<Phase>, k: nat): nat
    requires |phase| == |g| && k <= |g|
  {
    if k == 0 then 0 else PhaseSum(g, phase, k - 1) + PhaseWeight(g, k - 1, phase[k - 1])
  }

  ghost function WorkerSum(g: seq<Node>, workers: seq<Worker>, k: nat): nat
    requires WorkersInRange(g, workers) && k <= |workers|
  {
    if k == 0 then 0 else WorkerSum(g, workers, k - 1) + WorkerWeight(g, workers[k - 1])
  }

  ghost function Measure(g: seq<Node>, s: State): int
    requires InRange(g, s)
  {
    PhaseSum(g, s.phase, |g|) + WorkerSum(g, s.workers, |s.workers|) + MainWeight(|g|, |s.workers|, s.main)
  }

  lemma {:induction false} PhaseSumUpdate(g: seq<Node>, phase: seq<Phase>, d: nat, to: Phase, k: nat)
    requires |phase| == |g| && k <= |g| && d < |g|
    ensures PhaseSum(g, phase[d := to], k) ==
      PhaseSum(g, phase, k) + if d < k then PhaseWeight(g, d, to) - PhaseWeight(g, d, phase[d]) else 0
  {
    if k > 0 { PhaseSumUpdate(g, phase, d, to, k - 1); }
  }

  lemma {:induction false} WorkerSumUpdate(g: seq<Node>, workers: seq<Worker>, w: nat, p: Worker, k: nat)
    requires WorkersInRange(g, workers) && k <= |workers| && w < |workers| && WorkerInRange(g, p)
    ensures WorkersInRange(g, workers[w := p])
    ensures WorkerSum(g, workers[w := p], k) ==
      WorkerSum(g, workers, k) + if w < k then WorkerWeight(g, p) - WorkerWeight(g, workers[w]) else 0
  {
    if k > 0 { WorkerSumUpdate(g, workers, w, p, k - 1); }
  }

  lemma {:induction false} WakeAllWeight(g: seq<Node>, workers: seq<Worker>, k: nat)
    requires WorkersInRange(g, workers) && k <= |workers|
    ensures WorkersInRange(g, WakeAll(workers))
    ensures WorkerSum(g, WakeAll(workers), k) <= WorkerSum(g, workers, k) + k
  {
    if k > 0 { WakeAllWeight(g, workers, k - 1); }
  }

  lemma WakeWeight(g: seq<Node>, workers: seq<Worker>, wake: Option<nat>)
    requires WorkersInRange(g, workers) && WakeOk(workers, wake)
    ensures WorkersInRange(g, Wake(workers, wake))
    ensures WorkerSum(g, Wake(workers, wake), |workers|) <= WorkerSum(g, workers, |workers|) + 1
  {
    if wake.Some? { WorkerSumUpdate(g, workers, wake.value, Popping, |workers|); }
  }

  lemma {:induction false} SumsPositive(g: seq<Node>, s: State)
    requires InRange(g, s)
    ensures Measure(g, s) >= 0
  {
  }

  // ---- Every step uses some of it ----

  lemma GotoWeight(g: seq<Node>, s: State, w: nat, p: Worker)
    requires InRange(g, s) && w < |s.workers| && WorkerInRange(g, p)
    ensures WorkersInRange(g, s.workers[w := p])
    ensures WorkerSum(g, s.workers[w := p], |s.workers|) ==
      WorkerSum(g, s.workers, |s.workers|) + WorkerWeight(g, p) - WorkerWeight(g, s.workers[w])
  {
    WorkerSumUpdate(g, s.workers, w, p, |s.workers|);
  }

  lemma PopUses(g: seq<Node>, s: State, w: nat)
    requires InRange(g, s) && Enabled(g, s, Pop(w)) && Placed(g, s, Pop(w))
    ensures InRange(g, Apply(g, s, Pop(w))) && Measure(g, Apply(g, s, Pop(w))) < Measure(g, s)
  {
    StepKeepsRange(g, s, Pop(w));
    GotoWeight(g, s, w, Apply(g, s, Pop(w)).workers[w]);
    if s.ring.count > 0 { PhaseSumUpdate(g, s.phase, s.ring.Front(), Held(w), |g|); }
  }

  lemma CheckUses(g: seq<Node>, s: State, w: nat)
    requires InRange(g, s) && Enabled(g, s, Check(w)) && Placed(g, s, Check(w))
    ensures InRange(g, Apply(g, s, Check(w))) && Measure(g, Apply(g, s, Check(w))) < Measure(g, s)
  {
    StepKeepsRange(g, s, Check(w));
    GotoWeight(g, s, w, Apply(g, s, Check(w)).workers[w]);
    PhaseSumUpdate(g, s.phase, s.workers[w].node, Dropped, |g|);
  }

  lemma FailUses(g: seq<Node>, s: State, w: nat)
    requires InRange(g, s) && Enabled(g, s, Fail(w)) && Placed(g, s, Fail(w))
    ensures InRange(g, Apply(g, s, Fail(w))) && Measure(g, Apply(g, s, Fail(w))) < Measure(g, s)
  {
    StepKeepsRange(g, s, Fail(w));
    GotoWeight(g, s, w, Failing);
    PhaseSumUpdate(g, s.phase, s.workers[w].node, Failed(w), |g|);
  }

  lemma FinishUses(g: seq<Node>, s: State, w: nat)
    requires InRange(g, s) && Enabled(g, s, Finish(w)) && Placed(g, s, Finish(w))
    ensures InRange(g, Apply(g, s, Finish(w))) && Measure(g, Apply(g, s, Finish(w))) < Measure(g, s)
  {
    StepKeepsRange(g, s, Finish(w));
    GotoWeight(g, s, w, Popping);
    PhaseSumUpdate(g, s.phase, s.workers[w].node, Done, |g|);
  }

  lemma NotifyUses(g: seq<Node>, s: State, w: nat)
    requires InRange(g, s) && Enabled(g, s, Notify(w)) && Placed(g, s, Notify(w))
    ensures InRange(g, Apply(g, s, Notify(w))) && Measure(g, Apply(g, s, Notify(w))) < Measure(g, s)
  {
    StepKeepsRange(g, s, Notify(w));
    var t, d, i := Apply(g, s, Notify(w)), s.workers[w].node, s.workers[w].i;
    GotoWeight(g, s, w, t.workers[w]);
    if i < |g[d].dependents| { PhaseSumUpdate(g, s.phase, g[d].dependents[i], HandOf(w), |g|); }
  }

  lemma PushUses(g: seq<Node>, s: State, w: nat, wake: Option<nat>)
    requires InRange(g, s) && Enabled(g, s, Push(w, wake)) && Placed(g, s, Push(w, wake))
    ensures InRange(g, Apply(g, s, Push(w, wake))) && Measure(g, Apply(g, s, Push(w, wake))) < Measure(g, s)
  {
    StepKeepsRange(g, s, Push(w, wake));
    var d, i := s.workers[w].node, s.workers[w].i;
    WakeWeight(g, s.workers, wake);
    WorkerSumUpdate(g, Wake(s.workers, wake), w, Notifying(d, i + 1), |s.workers|);
    PhaseSumUpdate(g, s.phase, g[d].dependents[i], Queued, |g|);
  }

  lemma SeedUses(g: seq<Node>, s: State)
    requires InRange(g, s) && Enabled(g, s, Seed) && Placed(g, s, Seed)
    ensures InRange(g, Apply(g, s, Seed)) && Measure(g, Apply(g, s, Seed)) < Measure(g, s)
  {
    StepKeepsRange(g, s, Seed);
    if s.main.i < |g| { PhaseSumUpdate(g, s.phase, s.main.i, HandOfMain, |g|); }
  }

  lemma PushSeedUses(g: seq<Node>, s: State, wake: Option<nat>)
    requires InRange(g, s) && Enabled(g, s, PushSeed(wake)) && Placed(g, s, PushSeed(wake))
    ensures InRange(g, Apply(g, s, PushSeed(wake))) && Measure(g, Apply(g, s, PushSeed(wake))) < Measure(g, s)
  {
    StepKeepsRange(g, s, PushSeed(wake));
    WakeWeight(g, s.workers, wake);
    PhaseSumUpdate(g, s.phase, s.main.i, Queued, |g|);
  }

  lemma SilentUses(g: seq<Node>, s: State, a: Action)
    requires InRange(g, s) && Enabled(g, s, a) && Silent(a) && !Spurious(a)
    ensures InRange(g, Apply(g, s, a)) && Measure(g, Apply(g, s, a)) < Measure(g, s)
  {
    StepKeepsRange(g, s, a);
    match a
    case Succeed(w) => GotoWeight(g, s, w, Notifying(s.workers[w].node, 0));
    case StoreError(w) => GotoWeight(g, s, w, Signalling);
    case BroadcastError(w) => GotoWeight(g, s, w, Popping);
    case ShutDown => WakeAllWeight(g, s.workers, |s.workers|);
    case _ =>
  }

  lemma StepUses(g: seq<Node>, s: State, a: Action)
    requires Inv(g, s) && Enabled(g, s, a) && Clean(g, s, a) && !Spurious(a)
    ensures InRange(g, s) && InRange(g, Apply(g, s, a))
    ensures 0 <= Measure(g, Apply(g, s, a)) < Measure(g, s)
  {
    hide Core, Apply, Enabled, Clean, InRange, Placed, Measure, ErrorsOk, MainWaits, MainLeft, QueueServed, ShutdownOk,
         JoinedOk;
    CoreBasics(g, s);
    CoreIsPlaced(g, s, a);
    StepKeepsRange(g, s, a);
    SumsPositive(g, Apply(g, s, a));
    match a
    case Pop(w) => PopUses(g, s, w);
    case Check(w) => CheckUses(g, s, w);
    case Fail(w) => FailUses(g, s, w);
    case Notify(w) => NotifyUses(g, s, w);
    case Push(w, wake) => PushUses(g, s, w, wake);
    case Finish(w) => FinishUses(g, s, w);
    case Seed => SeedUses(g, s);
    case PushSeed(wake) => PushSeedUses(g, s, wake);
    case _ => SilentUses(g, s, a);
  }

  ghost predicate NoSpurious(acts: seq<Action>) {
    forall k | 0 <= k < |acts| :: !Spurious(acts[k])
  }

  /** Without spurious wake-ups a run is no longer than its initial measure. */
  lemma {:induction false} RunsAreBounded(g: seq<Node>, s: State, acts: seq<Action>, t: State)
    requires Inv(g, s) && CleanRun(g, s, acts, t) && NoSpurious(acts)
    ensures InRange(g, s) && Inv(g, t) && InRange(g, t)
    ensures |acts| + Measure(g, t) <= Measure(g, s)
    decreases |acts|
  {
    InvRange(g, s);
    if acts != [] {
      hide Inv, InRange, Enabled, Clean, Apply, Measure;
      StepUses(g, s, acts[0]);
      StepKeepsInv(g, s, acts[0]);
      RunsAreBounded(g, Apply(g, s, acts[0]), acts[1..], t);
    }
  }

  lemma InvRange(g: seq<Node>, s: State)
    requires Inv(g, s)
    ensures InRange(g, s)
  {
  }

  // ---- No deadlock ----

  /** A step that depends on nothing going wrong: no spurious wake-up, no failing builder. */
  predicate Orderly(a: Action) {
    !Spurious(a) && !a.Fail?
  }

  ghost predicate CanStep(g: seq<Node>, s: State) {
    exists a :: Enabled(g, s, a) && Orderly(a)
  }

  /** A worker that is awake can step, unless it waits for `done_lock`, and then main can. */
  lemma AwakeCanStep(g: seq<Node>, s: State, w: nat)
    requires InRange(g, s) && w < |s.workers| && !s.workers[w].Asleep? && !s.workers[w].Exited?
    ensures CanStep(g, s)
  {
    if DoneLocked(s.main) {
      assert Enabled(g, s, if s.main.Testing? then Test else Commit);
    } else {
      var a := match s.workers[w]
        case Popping => Pop(w)
        case Checking(_) => Check(w)
        case Running(_) => Succeed(w)
        case Failing => StoreError(w)
        case Signalling => BroadcastError(w)
        case Notifying(_, _) => Notify(w)
        case Pushing(_, _) => Push(w, FirstAsleep(s.workers, 0))
        case _ => Finish(w);
      FirstAsleepOk(s.workers, 0);
      assert Enabled(g, s, a);
    }
  }

  /** No thread waits for more than the code makes it wait for: a worker that sleeps may wake up by chance, one that has
      a broadcast or a decrement of `remaining_dirty` before it waits while main holds `done_lock`, and any other can
      take its next step, whatever the other threads are doing. */
  lemma EveryWorkerMoves(g: seq<Node>, s: State, w: nat) returns (a: Action)
    requires InRange(g, s) && w < |s.workers| && !s.workers[w].Exited?
    requires s.workers[w].Signalling? || s.workers[w].Finishing? ==> !s.main.Testing? && !s.main.Committing?
    ensures Enabled(g, s, a) && |Apply(g, s, a).workers| == |s.workers|
    ensures Apply(g, s, a).workers[w] != s.workers[w]
  {
    hide IdsInRange, MainInRange;
    FirstAsleepOk(s.workers, 0);
    a := match s.workers[w]
      case Popping => Pop(w)
      case Asleep => SpuriousWorker(w)
      case Checking(_) => Check(w)
      case Running(_) => Succeed(w)
      case Failing => StoreError(w)
      case Signalling => BroadcastError(w)
      case Notifying(_, _) => Notify(w)
      case Pushing(_, _) => Push(w, FirstAsleep(s.workers, 0))
      case _ => Finish(w);
    MovesHere(g, s, w, a);
  }

  lemma MovesHere(g: seq<Node>, s: State, w: nat, a: Action)
    requires InRange(g, s) && Enabled(g, s, a) && At(s, w)
    requires a == SpuriousWorker(w) || a == Pop(w) || a == Check(w) || a == Succeed(w) || a == StoreError(w)
             || a == BroadcastError(w) || a == Notify(w) || (a.Push? && a.w == w) || a == Finish(w)
    ensures |Apply(g, s, a).workers| == |s.workers| && Apply(g, s, a).workers[w] != s.workers[w]
  {
    hide IdsInRange, MainInRange, WakeOk;
  }

  /** A worker that puts a node into the queue may wake any of the sleepers, not just a certain one. */
  lemma AnySleeperMayWake(g: seq<Node>, s: State, w: nat, v: nat) returns (a: Action)
    requires InRange(g, s) && w < |s.workers| && v < |s.workers| && s.workers[w].Pushing? && s.workers[v].Asleep?
    ensures Enabled(g, s, a) && |Apply(g, s, a).workers| == |s.workers|
    ensures Apply(g, s, a).workers[v] == Popping && Apply(g, s, a).workers[w].Notifying?
  {
    hide IdsInRange, MainInRange;
    a := Push(w, Some(v));
  }

  /** Main can move on from everywhere, whatever the workers do, except that it waits for a worker it joins; the wait
      for the condition may end without a signal. */
  lemma MainMoves(g: seq<Node>, s: State) returns (a: Action)
    requires InRange(g, s) && !s.main.Returned?
    requires s.main.Joining? && s.main.w < |s.workers| ==> s.workers[s.main.w].Exited?
    ensures Enabled(g, s, a) && Apply(g, s, a).main != s.main
  {
    hide IdsInRange, WorkerInRange;
    FirstAsleepOk(s.workers, 0);
    a := match s.main
      case Seeding(_) => Seed
      case SeedPush(_) => PushSeed(FirstAsleep(s.workers, 0))
      case Locking => Lock
      case Testing => Test
      case Committing => Commit
      case MainAsleep => SpuriousMain
      case ShuttingDown => ShutDown
      case _ => Join;
  }

  function FirstAsleep(workers: seq<Worker>, from: nat): (r: Option<nat>)
    requires from <= |workers|
    decreases |workers| - from
  {
    if from == |workers| then None
    else if workers[from].Asleep? then Some(from)
    else FirstAsleep(workers, from + 1)
  }

  lemma {:induction false} FirstAsleepOk(workers: seq<Worker>, from: nat)
    requires from <= |workers| && forall w | 0 <= w < from :: !workers[w].Asleep?
    ensures WakeOk(workers, FirstAsleep(workers, from))
    decreases |workers| - from
  {
    if from < |workers| && !workers[from].Asleep? { FirstAsleepOk(workers, from + 1); }
  }

  /** With every worker asleep or gone, main can step unless it sleeps as well. */
  lemma MainCanStep(g: seq<Node>, s: State)
    requires InRange(g, s) && ShutdownOk(s) && !s.main.Returned? && !s.main.MainAsleep?
    requires forall w | 0 <= w < |s.workers| :: s.workers[w].Asleep? || s.workers[w].Exited?
    ensures CanStep(g, s)
  {
    FirstAsleepOk(s.workers, 0);
    var a := match s.main
      case Seeding(_) => Seed
      case SeedPush(_) => PushSeed(FirstAsleep(s.workers, 0))
      case Locking => Lock
      case Testing => Test
      case Committing => Commit
      case ShuttingDown => ShutDown
      case _ => Join;
    assert Enabled(g, s, a);
  }

  /** When everyone sleeps, every dirty node is done or still owed a decrement by a waiting one. */
  lemma SleepersWait(g: seq<Node>, s: State, d: nat)
    requires Inv(g, s) && IdsInRange(g) && Mirrored(g) && s.main.MainAsleep?
    requires forall w | 0 <= w < |s.workers| :: s.workers[w].Asleep? || s.workers[w].Exited?
    requires d < |g| && Active(g, d)
    ensures |s.phase| == |g| && (s.phase[d].Done? || s.phase[d].Waiting?)
    ensures s.phase[d].Waiting? ==> s.pending[d] > 0
  {
    hide Ring.Contents, PendingOk, VisitedOk, StartedOk, RemainingOk, MainLeft, JoinedOk;
    assert forall w: nat | w < |s.workers| :: V(g, s, w) == Idle;
    assert s.ring.count == 0;
    if s.phase[d].Queued? { assert d in s.ring.Contents(); EmptyContents(s.ring); }
  }

  lemma EmptyContents(r: Ring)
    requires r.Valid() && r.count == 0
    ensures r.Contents() == []
  {
  }

  /** A waiting node waits for another waiting node. */
  lemma WaiterWaits(g: seq<Node>, s: State, c: set<nat>, d: nat)
    requires Inv(g, s) && IdsInRange(g) && Mirrored(g) && s.main.MainAsleep?
    requires forall w | 0 <= w < |s.workers| :: s.workers[w].Asleep? || s.workers[w].Exited?
    requires |s.phase| == |g| && d < |g| && Active(g, d) && s.phase[d].Waiting?
    requires forall m: nat | m < |g| && Active(g, m) && s.phase[m].Waiting? :: m in c
    ensures WaitsWithin(g, c, d)
  {
    SleepersWait(g, s, d);
    hide Inv, Mirrored;
    var m := WaitsFor(g, s, d);
    SleepersWait(g, s, m);
    if s.phase[m].Done? { DoneOwesNothing(g, s, d, m); }
  }

  /** So without a knot nobody waits when everyone sleeps. */
  lemma NobodyWaits(g: seq<Node>, s: State, d: nat)
    requires Inv(g, s) && IdsInRange(g) && Mirrored(g) && Untangled(g) && s.main.MainAsleep?
    requires forall w | 0 <= w < |s.workers| :: s.workers[w].Asleep? || s.workers[w].Exited?
    requires d < |g| && Active(g, d)
    ensures |s.phase| == |g| && s.phase[d].Done?
  {
    hide Inv, Mirrored, IdsInRange, WaitsWithin, Untangled;
    SleepersWait(g, s, d);
    if s.phase[d].Waiting? {
      var c := set m: nat | m < |g| && Active(g, m) && s.phase[m].Waiting?;
      assert d in c;
      forall m | m in c ensures WaitsWithin(g, c, m) { WaiterWaits(g, s, c, m); }
      assert Knot(g, c);
      NoKnot(g, c);
    }
  }

  lemma NoKnot(g: seq<Node>, c: set<nat>)
    requires Untangled(g)
    ensures !Knot(g, c)
  {
  }

  lemma WaitsFor(g: seq<Node>, s: State, d: nat) returns (m: nat)
    requires Inv(g, s) && IdsInRange(g) && Mirrored(g) && d < |g| && Active(g, d) && s.pending[d] > 0
    ensures VisitedInRange(g, s.notified)
    ensures m < |g| && Active(g, m) && m in g[d].waitsOn && d in g[m].dependents[s.notified[m]..]
  {
    hide Owned, VisitedOk, StartedOk, RemainingOk, ErrorsOk, MainWaits, MainLeft, QueueServed, ShutdownOk, JoinedOk;
    m := SomethingOwed(g, s.notified, d, |g|);
    assert d in g[m].dependents;
    assert multiset(g[m].dependents)[d] > 0;
    assert multiset(g[m].dependents)[d] == multiset(g[d].waitsOn)[m];
  }

  lemma DoneOwesNothing(g: seq<Node>, s: State, d: nat, m: nat)
    requires Inv(g, s) && m < |g| == |s.phase| && s.phase[m].Done? && VisitedInRange(g, s.notified)
    ensures d !in g[m].dependents[s.notified[m]..]
  {
    hide Owned, PendingOk, StartedOk, RemainingOk, ErrorsOk, MainWaits, MainLeft, QueueServed, ShutdownOk, JoinedOk;
    assert s.notified[m] == |g[m].dependents|;
  }

  /** While main sleeps, some worker is awake. */
  lemma SleepingMainHasCompany(g: seq<Node>, s: State)
    requires Inv(g, s) && WellFormed(g) && Untangled(g) && s.main.MainAsleep?
    ensures SomeAwake(s.workers)
  {
    if !SomeAwake(s.workers) {
      hide Inv, Mirrored, IdsInRange, Untangled;
      MainSleepsOnWork(g, s);
      var d: nat :| d < |g| && Active(g, d) && !s.phase[d].Done?;
      NobodyWaits(g, s, d);
    }
  }

  lemma MainSleepsOnWork(g: seq<Node>, s: State)
    requires Inv(g, s) && s.main.MainAsleep?
    ensures |s.phase| == |g| && exists d: nat :: d < |g| && Active(g, d) && !s.phase[d].Done?
  {
    hide Core;
    RemainingWitness(g, s);
  }

  /** Unless dirty nodes wait for each other in a cycle, no state before the return is stuck: there is no deadlock and
      no lost wake-up. */
  lemma NoDeadlock(g: seq<Node>, s: State)
    requires Inv(g, s) && WellFormed(g) && Untangled(g) && !s.main.Returned?
    ensures CanStep(g, s)
  {
    hide Inv, Untangled, WellFormed, CanStep;
    if s.main.MainAsleep? { SleepingMainHasCompany(g, s); }
    CompanyCanStep(g, s);
  }

  lemma CompanyCanStep(g: seq<Node>, s: State)
    requires Inv(g, s) && !s.main.Returned? && (s.main.MainAsleep? ==> SomeAwake(s.workers))
    ensures CanStep(g, s)
  {
    hide Core, Enabled;
    InvRange(g, s);
    if SomeAwake(s.workers) {
      var w: nat :| w < |s.workers| && !s.workers[w].Asleep? && !s.workers[w].Exited?;
      AwakeCanStep(g, s, w);
    } else {
      MainCanStep(g, s);
    }
  }

  lemma RemainingWitness(g: seq<Node>, s: State)
    requires Inv(g, s) && s.remaining > 0
    ensures |s.phase| == |g| && exists d: nat :: d < |g| && Active(g, d) && !s.phase[d].Done?
  {
    hide Owned, PendingOk, VisitedOk, StartedOk, ErrorsOk, MainWaits, MainLeft, QueueServed, ShutdownOk, JoinedOk;
    var d :| d in Undone(g, s.phase);
  }

  // ---- The return code ----

  /** `zmm_bg_exec` returns 0 exactly if every dirty node has completed, and 1 exactly if some builder failed. */
  lemma ReturnCode(g: seq<Node>, s: State)
    requires Inv(g, s) && s.main.Returned?
    ensures |s.phase| == |g|
    ensures s.main.code == 0 || s.main.code == 1
    ensures s.main.code == 0 <==> forall d: nat | d < |g| && Active(g, d) :: s.phase[d].Done?
    ensures s.main.code == 1 <==> exists d: nat :: d < |g| && s.phase[d].Failed?
  {
    hide QueueHolds, Holders, Hands, WaitingOk, PendingOk, VisitedOk, StartedOk, MainWaits, QueueServed;
    if !s.hasError {
      assert Undone(g, s.phase) == {};
      forall d: nat | d < |g| && Active(g, d)
        ensures s.phase[d].Done?
      {
        assert d !in Undone(g, s.phase);
      }
    }
  }
}
