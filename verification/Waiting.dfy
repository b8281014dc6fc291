/** The invariants about errors, sleeping and waking, and the complete invariant of clean runs. */
module WaitingInvariant {
  import opened Basics
  import opened Graphs
  import opened Plans
  import opened TaskQueues
  import opened Schedulers
  import opened Ownership
  import OwnershipSteps
  import opened Counting
  import opened CoreInvariant
  import opened Steps

  predicate Terminal(p: Phase) {
    p.Done? || p.Dropped? || p.Failed?
  }

  /** What a step does to the phase of one node, as far as errors are concerned. */
  ghost predicate PhaseStep(g: seq<Node>, s: State, a: Action, d: nat)
    requires InRange(g, s) && Enabled(g, s, a) && d < |g|
  {
    var t := Apply(g, s, a);
    && d < |t.phase|
    && (Terminal(s.phase[d]) ==> t.phase[d] == s.phase[d])
    && (t.phase[d].Dropped? && !s.phase[d].Dropped? ==> s.hasError)
    && (t.phase[d].Failed? && t.phase[d] != s.phase[d] ==>
          (a.Fail? && t.phase[d] == Failed(a.w) && s.workers[a.w].node == d))
  }

  /** The node that a step moves is where the step takes it from. */
  ghost predicate Placed(g: seq<Node>, s: State, a: Action)
    requires InRange(g, s) && Enabled(g, s, a)
  {
    match a
    case Pop(w) => s.ring.count > 0 ==> s.phase[s.ring.Front()].Queued?
    case Check(w) => s.phase[s.workers[w].node] == Held(w)
    case Fail(w) => s.phase[s.workers[w].node] == Held(w)
    case Finish(w) => s.phase[s.workers[w].node] == Held(w)
    case Notify(w) =>
      var d, i := s.workers[w].node, s.workers[w].i;
      i < |g[d].dependents| && Active(g, g[d].dependents[i]) && s.pending[g[d].dependents[i]] == 1 ==>
        s.phase[g[d].dependents[i]].Waiting?
    case Push(w, _) => s.phase[g[s.workers[w].node].dependents[s.workers[w].i]] == HandOf(w)
    case Seed => s.main.i < |g| && Active(g, s.main.i) && s.pending[s.main.i] == 0 ==> s.phase[s.main.i].Waiting?
    case PushSeed(_) => s.phase[s.main.i].HandOfMain?
    case _ => true
  }

  lemma PlacedStep(g: seq<Node>, s: State, a: Action, d: nat)
    requires InRange(g, s) && Enabled(g, s, a) && Placed(g, s, a) && d < |g|
    ensures PhaseStep(g, s, a, d)
  {
    if a.Notify? || a.Push? {
      PlacedDependentStep(g, s, a, d);
      hide InRange, Apply, Enabled, Placed;
    } else {
      hide IdsInRange, MainInRange;
    }
  }

  lemma PlacedDependentStep(g: seq<Node>, s: State, a: Action, d: nat)
    requires InRange(g, s) && Enabled(g, s, a) && Placed(g, s, a) && d < |g| && (a.Notify? || a.Push?)
    ensures PhaseStep(g, s, a, d)
  {
    hide RingInRange, MainInRange;
  }

  lemma HoldingIsPlaced(g: seq<Node>, s: State, a: Action)
    requires InRange(g, s) && Holders(g, s) && Hands(g, s) && Enabled(g, s, a)
    requires !a.Pop? && !a.Notify? && !a.Seed?
    ensures Placed(g, s, a)
  {
    match a
    case Check(w) => assert V(g, s, w).node.Some?;
    case Fail(w) => assert V(g, s, w).node.Some?;
    case Finish(w) => assert V(g, s, w).node.Some?;
    case Push(w, _) => assert V(g, s, w).hand.Some?;
    case _ =>
  }

  lemma CountingIsPlaced(g: seq<Node>, s: State, a: Action)
    requires InRange(g, s) && WaitingOk(g, s) && Enabled(g, s, a) && Clean(g, s, a)
    requires a.Notify? || a.Seed?
    requires forall d: nat | d < |g| && Active(g, d) :: s.pending[d] <= g[d].marks.pendingDeps
    ensures Placed(g, s, a)
  {
  }

  lemma CoreIsPlaced(g: seq<Node>, s: State, a: Action)
    requires Core(g, s) && Enabled(g, s, a) && Clean(g, s, a)
    ensures Placed(g, s, a)
  {
    hide PendingOk, VisitedOk, StartedOk, RemainingOk, Holders, Hands, WaitingOk, QueueHolds, InRange, Clean;
    CoreBasics(g, s);
    if a.Pop? {
      if s.ring.count > 0 { OwnershipSteps.PopKeepsQueue(g, s.ring, s.phase, Dropped); }
    } else if a.Notify? || a.Seed? {
      CountingIsPlaced(g, s, a);
    } else {
      HoldingIsPlaced(g, s, a);
    }
  }

  // ---- Errors ----

  /** `hasError` is set exactly when some builder failed, except while the failing worker is about to set it. */
  ghost predicate ErrorsOk(g: seq<Node>, s: State)
    requires InRange(g, s)
  {
    && (forall d: nat | d < |g| && s.phase[d].Failed? ::
          && CanFail(g[d]) && s.phase[d].worker < |s.workers|
          && (s.hasError || s.workers[s.phase[d].worker].Failing?))
    && (s.hasError ==> exists d: nat :: d < |g| && s.phase[d].Failed?)
    && (forall w: nat | w < |s.workers| && s.workers[w].Failing? :: exists d: nat :: d < |g| && s.phase[d] == Failed(w))
    && (forall d: nat | d < |g| && s.phase[d].Dropped? :: s.hasError)
  }

  /** A step, described by what matters for errors. */
  ghost predicate ErrorStep(g: seq<Node>, s: State, t: State, a: Action) {
    && |s.phase| == |t.phase| == |g| && |s.workers| == |t.workers|
    && (forall d: nat | d < |g| && Terminal(s.phase[d]) :: t.phase[d] == s.phase[d])
    && (forall d: nat | d < |g| && t.phase[d].Dropped? && !s.phase[d].Dropped? :: s.hasError)
    && (forall d: nat | d < |g| && t.phase[d].Failed? && t.phase[d] != s.phase[d] :: (
          a.Fail? && t.phase[d] == Failed(a.w) && CanFail(g[d])))
    && t.hasError == (s.hasError || a.StoreError?)
    && (a.StoreError? ==> a.w < |s.workers| && s.workers[a.w].Failing?)
    && (a.Fail? ==> a.w < |s.workers| && exists d: nat :: d < |g| && t.phase[d] == Failed(a.w))
    && (forall w: nat | w < |s.workers| ::
          t.workers[w].Failing? ==
            ((s.workers[w].Failing? && !(a.StoreError? && a.w == w)) || (a.Fail? && a.w == w)))
  }

  lemma ErrorStepKeepsErrors(g: seq<Node>, s: State, t: State, a: Action)
    requires InRange(g, s) && InRange(g, t) && ErrorsOk(g, s) && ErrorStep(g, s, t, a)
    ensures ErrorsOk(g, t)
  {
    hide InRange;
    if s.hasError {
      var d: nat :| d < |g| && s.phase[d].Failed?;
      assert t.phase[d].Failed?;
    }
    if a.StoreError? {
      var d: nat :| d < |g| && s.phase[d] == Failed(a.w);
      assert t.phase[d].Failed?;
    }
    forall w: nat | w < |t.workers| && t.workers[w].Failing?
      ensures exists d: nat :: d < |g| && t.phase[d] == Failed(w)
    {
      if s.workers[w].Failing? {
        var d: nat :| d < |g| && s.phase[d] == Failed(w);
        assert t.phase[d] == Failed(w);
      }
    }
  }

  lemma StepKeepsErrors(g: seq<Node>, s: State, a: Action)
    requires InRange(g, s) && Enabled(g, s, a) && Placed(g, s, a) && ErrorsOk(g, s)
    ensures InRange(g, Apply(g, s, a)) && ErrorsOk(g, Apply(g, s, a))
  {
    hide Apply, Enabled, Placed, InRange, ErrorsOk;
    StepKeepsRange(g, s, a);
    RangeSizes(g, s);
    RangeSizes(g, Apply(g, s, a));
    var t := Apply(g, s, a);
    FailureSteps(g, s, a);
    forall d: nat | d < |g|
      ensures Terminal(s.phase[d]) ==> t.phase[d] == s.phase[d]
      ensures t.phase[d].Dropped? && !s.phase[d].Dropped? ==> s.hasError
      ensures t.phase[d].Failed? && t.phase[d] != s.phase[d] ==> (
        a.Fail? && t.phase[d] == Failed(a.w) && CanFail(g[d]))
    {
      PlacedStep(g, s, a, d);
      assert PhaseStep(g, s, a, d);
    }
    forall w: nat | w < |s.workers| { FailingWorkers(g, s, a, w); }
    if a.Fail? { assert t.phase[s.workers[a.w].node] == Failed(a.w); }
    assert ErrorStep(g, s, t, a);
    ErrorStepKeepsErrors(g, s, t, a);
  }

  lemma RangeSizes(g: seq<Node>, s: State)
    requires InRange(g, s)
    ensures |s.pending| == |s.phase| == |s.notified| == |s.started| == |g|
  {
  }

  /** How a step moves workers into and out of the failing state, and what happens to `hasError`. */
  lemma FailingWorkers(g: seq<Node>, s: State, a: Action, w: nat)
    requires InRange(g, s) && Enabled(g, s, a) && w < |s.workers|
    ensures var t := Apply(g, s, a);
            && |t.workers| == |s.workers|
            && t.workers[w].Failing? ==
                 ((s.workers[w].Failing? && !(a.StoreError? && a.w == w)) || (a.Fail? && a.w == w))
  {
    if StepOf(a, w) {
      hide IdsInRange, RingInRange, MainInRange;
    } else {
      OthersLeave(g, s, a, w);
      hide Apply, InRange;
    }
  }

  lemma FailureSteps(g: seq<Node>, s: State, a: Action)
    requires InRange(g, s) && Enabled(g, s, a)
    ensures var t := Apply(g, s, a);
            && |t.workers| == |s.workers|
            && t.hasError == (s.hasError || a.StoreError?)
            && (a.StoreError? ==> a.w < |s.workers| && s.workers[a.w].Failing?)
            && (a.Fail? ==> (
                  && a.w < |s.workers| && s.workers[a.w].Running? && s.workers[a.w].node < |g| == |t.phase|
                  && CanFail(g[s.workers[a.w].node]) && t.phase[s.workers[a.w].node] == Failed(a.w)))
  {
  }

  // ---- Sleeping and waking ----

  ghost predicate SomeSignalling(workers: seq<Worker>) {
    exists w :: 0 <= w < |workers| && workers[w].Signalling?
  }

  ghost predicate SomeAwake(workers: seq<Worker>) {
    exists w :: 0 <= w < |workers| && !workers[w].Asleep? && !workers[w].Exited?
  }

  /** No lost wake-up for main: while it waits there is work left, and a stored error is still to be broadcast. */
  ghost predicate MainWaits(s: State) {
    s.main.Committing? || s.main.MainAsleep? ==> s.remaining > 0 && (s.hasError ==> SomeSignalling(s.workers))
  }

  /** Main leaves its loop only for a reason, and the reason persists. */
  ghost predicate MainLeft(s: State) {
    s.main.ShuttingDown? || s.main.Joining? || s.main.Returned? ==> s.remaining == 0 || s.hasError
  }

  /** No lost wake-up for workers: a non-empty queue has a worker that will look at it. */
  ghost predicate QueueServed(s: State) {
    s.ring.count > 0 ==> SomeAwake(s.workers)
  }

  ghost predicate ShutdownOk(s: State) {
    && (s.shutdown <==> s.main.Joining? || s.main.Returned?)
    && (forall w | 0 <= w < |s.workers| ::
          (s.workers[w].Exited? ==> s.shutdown) && (s.workers[w].Asleep? ==> !s.shutdown))
  }

  ghost predicate JoinedOk(s: State) {
    && (s.main.Joining? ==> forall w: nat | w < s.main.w && w < |s.workers| :: s.workers[w].Exited?)
    && (s.main.Returned? ==> s.main.code == if s.hasError then 1 else 0)
    && (s.main.Returned? ==> forall w | 0 <= w < |s.workers| :: s.workers[w].Exited?)
  }

  lemma StepKeepsMainWaits(g: seq<Node>, s: State, a: Action)
    requires InRange(g, s) && Enabled(g, s, a) && MainWaits(s)
    requires a.Finish? ==> s.remaining > 0 && Apply(g, s, a).remaining == s.remaining - 1
    ensures MainWaits(Apply(g, s, a))
  {
    if a.BroadcastError? || a.StoreError? {
      ErrorKeepsMainWaits(g, s, a);
    } else {
      if SomeSignalling(s.workers) {
        var w :| 0 <= w < |s.workers| && s.workers[w].Signalling?;
        SignallingStays(g, s, a, w);
        assert SomeSignalling(Apply(g, s, a).workers);
      }
      hide IdsInRange, WorkersInRange, RingInRange, MainInRange, SomeSignalling, WakeAll, Wake;
    }
  }

  lemma ErrorKeepsMainWaits(g: seq<Node>, s: State, a: Action)
    requires InRange(g, s) && Enabled(g, s, a) && MainWaits(s) && (a.BroadcastError? || a.StoreError?)
    ensures MainWaits(Apply(g, s, a))
  {
    hide IdsInRange, WorkersInRange, RingInRange, MainInRange;
    if a.StoreError? { assert Apply(g, s, a).workers[a.w].Signalling?; }
  }

  lemma SignallingStays(g: seq<Node>, s: State, a: Action, w: nat)
    requires InRange(g, s) && Enabled(g, s, a) && !a.BroadcastError? && w < |s.workers| && s.workers[w].Signalling?
    ensures w < |Apply(g, s, a).workers| && Apply(g, s, a).workers[w].Signalling?
  {
    if !StepOf(a, w) {
      OthersLeave(g, s, a, w);
      hide Apply, Enabled, InRange, StepOf;
    }
  }

  lemma StepKeepsMainLeft(g: seq<Node>, s: State, a: Action)
    requires InRange(g, s) && Enabled(g, s, a) && MainLeft(s)
    requires a.Finish? ==> s.remaining > 0
    ensures MainLeft(Apply(g, s, a))
  {
    hide IdsInRange, WorkersInRange, RingInRange, MainInRange;
  }

  /** The step is one of worker `w`. */
  predicate StepOf(a: Action, w: nat) {
    match a
    case Pop(v) => v == w
    case Check(v) => v == w
    case Succeed(v) => v == w
    case Fail(v) => v == w
    case StoreError(v) => v == w
    case BroadcastError(v) => v == w
    case Notify(v) => v == w
    case Push(v, _) => v == w
    case Finish(v) => v == w
    case SpuriousWorker(v) => v == w
    case _ => false
  }

  predicate StepOfMain(a: Action) {
    a.Seed? || a.PushSeed? || a.Lock? || a.Test? || a.Commit? || a.ShutDown? || a.Join? || a.SpuriousMain?
  }

  predicate StaysOrWakes(p: Worker, q: Worker) {
    q == p || (p.Asleep? && q.Popping?)
  }

  lemma MainLeaves(g: seq<Node>, s: State, a: Action, w: nat)
    requires InRange(g, s) && Enabled(g, s, a) && w < |s.workers| && StepOfMain(a)
    ensures |Apply(g, s, a).workers| == |s.workers| && StaysOrWakes(s.workers[w], Apply(g, s, a).workers[w])
  {
    hide IdsInRange, WorkersInRange, RingInRange, MainInRange;
  }

  lemma OtherWorkersLeave(g: seq<Node>, s: State, a: Action, w: nat)
    requires InRange(g, s) && Enabled(g, s, a) && w < |s.workers| && !StepOf(a, w) && !StepOfMain(a)
    ensures |Apply(g, s, a).workers| == |s.workers| && StaysOrWakes(s.workers[w], Apply(g, s, a).workers[w])
  {
    hide IdsInRange, WorkersInRange, RingInRange, MainInRange;
  }

  /** Other threads leave a worker where it is, or wake it. */
  lemma OthersLeave(g: seq<Node>, s: State, a: Action, w: nat)
    requires InRange(g, s) && Enabled(g, s, a) && w < |s.workers| && !StepOf(a, w)
    ensures |Apply(g, s, a).workers| == |s.workers| && StaysOrWakes(s.workers[w], Apply(g, s, a).workers[w])
  {
    hide *;
    if StepOfMain(a) { MainLeaves(g, s, a, w); } else { OtherWorkersLeave(g, s, a, w); }
  }

  /** A worker that is neither asleep nor gone stays so, unless it finds the queue empty. */
  lemma AwakeStays(g: seq<Node>, s: State, a: Action, w: nat)
    requires InRange(g, s) && Enabled(g, s, a) && s.ring.count > 0
    requires w < |s.workers| && !s.workers[w].Asleep? && !s.workers[w].Exited?
    ensures !Apply(g, s, a).workers[w].Asleep? && !Apply(g, s, a).workers[w].Exited?
  {
    if StepOf(a, w) {
      hide IdsInRange, RingInRange, MainInRange;
    } else {
      OthersLeave(g, s, a, w);
      hide Apply, Enabled, InRange, StepOf;
    }
  }

  lemma PushServes(g: seq<Node>, s: State, a: Action)
    requires InRange(g, s) && Enabled(g, s, a) && ShutdownOk(s) && |s.workers| > 0
    requires s.ring.count == 0
    ensures Apply(g, s, a).ring.count > 0 ==> SomeAwake(Apply(g, s, a).workers)
  {
    hide IdsInRange, WorkersInRange, RingInRange, MainInRange;
    var t := Apply(g, s, a);
    if a.Push? {
      assert !t.workers[a.w].Asleep? && !t.workers[a.w].Exited?;
    } else if a.PushSeed? {
      var w := if a.wake.Some? then a.wake.value else 0;
      assert !t.workers[w].Asleep? && !t.workers[w].Exited?;
    }
  }

  lemma StepKeepsQueueServed(g: seq<Node>, s: State, a: Action)
    requires InRange(g, s) && Enabled(g, s, a) && QueueServed(s) && ShutdownOk(s) && |s.workers| > 0
    ensures QueueServed(Apply(g, s, a))
  {
    hide Apply, Enabled, InRange;
    if s.ring.count > 0 {
      var w :| 0 <= w < |s.workers| && !s.workers[w].Asleep? && !s.workers[w].Exited?;
      StepKeepsRange(g, s, a);
      AwakeStays(g, s, a, w);
    } else {
      PushServes(g, s, a);
    }
  }

  lemma StepKeepsShutdown(g: seq<Node>, s: State, a: Action)
    requires InRange(g, s) && Enabled(g, s, a) && ShutdownOk(s)
    ensures ShutdownOk(Apply(g, s, a))
  {
    hide IdsInRange, WorkersInRange, RingInRange, MainInRange;
  }

  lemma StepKeepsJoined(g: seq<Node>, s: State, a: Action)
    requires InRange(g, s) && Enabled(g, s, a) && JoinedOk(s)
    ensures JoinedOk(Apply(g, s, a))
  {
    if StepOfMain(a) {
      MainKeepsJoined(g, s, a);
      hide Apply, Enabled, InRange;
    } else {
      WorkerKeepsJoined(g, s, a);
      hide Apply, Enabled, InRange;
    }
  }

  lemma MainKeepsJoined(g: seq<Node>, s: State, a: Action)
    requires InRange(g, s) && Enabled(g, s, a) && JoinedOk(s) && StepOfMain(a)
    ensures JoinedOk(Apply(g, s, a))
  {
    hide IdsInRange, WorkersInRange, RingInRange, MainInRange;
  }

  lemma WorkerKeepsJoined(g: seq<Node>, s: State, a: Action)
    requires InRange(g, s) && Enabled(g, s, a) && JoinedOk(s) && !StepOfMain(a)
    ensures JoinedOk(Apply(g, s, a))
  {
    hide IdsInRange, WorkersInRange, RingInRange, MainInRange;
  }

  // ---- The invariant of clean runs ----

  ghost predicate Inv(g: seq<Node>, s: State) {
    && Core(g, s) && ErrorsOk(g, s) && |s.workers| > 0
    && MainWaits(s) && MainLeft(s) && QueueServed(s) && ShutdownOk(s) && JoinedOk(s)
  }

  lemma StepKeepsInv(g: seq<Node>, s: State, a: Action)
    requires Inv(g, s) && Enabled(g, s, a) && Clean(g, s, a)
    ensures Inv(g, Apply(g, s, a))
  {
    hide Apply, Enabled, Clean, Core, ErrorsOk, MainWaits, MainLeft, QueueServed, ShutdownOk, JoinedOk, InRange;
    CoreBasics(g, s);
    StepKeepsRange(g, s, a);
    StepKeepsCore(g, s, a);
    CoreIsPlaced(g, s, a);
    StepKeepsErrors(g, s, a);
    if a.Finish? { FinishKeepsCore(g, s, a.w); }
    StepKeepsMainWaits(g, s, a);
    StepKeepsMainLeft(g, s, a);
    StepKeepsQueueServed(g, s, a);
    StepKeepsShutdown(g, s, a);
    StepKeepsJoined(g, s, a);
  }

  /** The graph fits the machine's counters. */
  ghost predicate Fits(g: seq<Node>) {
    |g| <= U64 && forall i | 0 <= i < |g| :: |g[i].waitsOn| < U32
  }

  ghost function Start(g: seq<Node>, n: nat): State
    requires ActiveSet(g) != {}
  {
    Initial(g, |ActiveSet(g)|, n)
  }

  lemma StartRange(g: seq<Node>, n: nat)
    requires Prepared(g) && ActiveSet(g) != {}
    ensures InRange(g, Start(g, n))
  {
    var i :| i in ActiveSet(g);
    assert i < |g|;
  }

  lemma StartIsOwned(g: seq<Node>, n: nat)
    requires ActiveSet(g) != {} && InRange(g, Start(g, n))
    ensures Owned(g, Start(g, n))
  {
    hide InRange, ActiveSet;
    var s := Start(g, n);
    RangeSizes(g, s);
    StartIsIdle(g, n);
    assert QueueHolds(g, s.ring, s.phase);
  }

  lemma StartIsIdle(g: seq<Node>, n: nat)
    requires ActiveSet(g) != {} && InRange(g, Start(g, n))
    ensures Holders(g, Start(g, n)) && Hands(g, Start(g, n))
    ensures WaitingOk(g, Start(g, n))
  {
    hide ActiveSet, IdsInRange, RingInRange;
  }

  lemma StartIsCounted(g: seq<Node>, n: nat)
    requires ActiveSet(g) != {} && InRange(g, Start(g, n))
    ensures VisitedOk(g, Start(g, n)) && StartedOk(g, Start(g, n))
  {
    hide ActiveSet, IdsInRange, RingInRange;
  }

  lemma StartRemains(g: seq<Node>, n: nat)
    requires ActiveSet(g) != {} && |g| <= U64
    ensures RemainingOk(g, Start(g, n))
  {
    var s := Start(g, n);
    BelowCount(|g|, ActiveSet(g));
    assert Undone(g, s.phase) == ActiveSet(g);
  }

  lemma StartsInCore(g: seq<Node>, n: nat)
    requires Prepared(g) && Fits(g) && ActiveSet(g) != {}
    ensures Core(g, Start(g, n))
  {
    hide Prepared, ActiveSet, InRange, Owned, VisitedOk, PendingOk, StartedOk, RemainingOk;
    StartRange(g, n);
    StartIsOwned(g, n);
    StartIsCounted(g, n);
    InitialPending(g, |ActiveSet(g)|, n);
    StartRemains(g, n);
  }

  lemma StartsWithoutErrors(g: seq<Node>, n: nat)
    requires ActiveSet(g) != {} && InRange(g, Start(g, n))
    ensures ErrorsOk(g, Start(g, n))
  {
    hide InRange, ActiveSet;
  }

  lemma StartsAwake(g: seq<Node>, n: nat)
    requires ActiveSet(g) != {} && n > 0
    ensures var s := Start(g, n);
            |s.workers| == n && MainWaits(s) && MainLeft(s) && QueueServed(s) && ShutdownOk(s) && JoinedOk(s)
  {
    hide ActiveSet;
  }

  lemma StartsInInv(g: seq<Node>, n: nat)
    requires Prepared(g) && Fits(g) && ActiveSet(g) != {} && n > 0
    ensures Inv(g, Start(g, n))
  {
    hide Prepared, Fits, ActiveSet, Core, InRange, ErrorsOk, MainWaits, MainLeft, QueueServed, ShutdownOk, JoinedOk,
         Start;
    StartsInCore(g, n);
    StartRange(g, n);
    StartsWithoutErrors(g, n);
    StartsAwake(g, n);
  }
}
