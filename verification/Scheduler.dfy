/** `zmm_bg_exec` as a step relation.  Each action is one atomic step of one thread: a critical
    section, one atomic operation, or the start or end of a builder call.  The relation allows
    every interleaving of the main thread and any number of workers. */
module Schedulers {
  import opened Basics
  import opened Graphs
  import opened Plans
  import opened TaskQueues

  const U64 := 0x1_0000_0000_0000_0000

  /** Where a worker is inside `worker_fn`. */
  datatype Worker =
    | Popping                          // about to enter queue_pop
    | Asleep                           // waiting on not_empty
    | Checking(node: nat)              // popped a node, about to load has_error
    | Running(node: nat)               // the builder is running
    | Failing                          // the builder failed, has_error not stored yet
    | Signalling                       // has_error stored, about to broadcast
    | Notifying(node: nat, i: nat)     // about to look at dependent i
    | Pushing(node: nat, i: nat)       // brought dependent i to zero, about to push it
    | Finishing(node: nat)             // about to decrement remaining_dirty
    | Exited

  /** Where the main thread is inside `zmm_bg_exec`. */
  datatype Main =
    | Seeding(i: nat)                  // about to scan node i
    | SeedPush(i: nat)                 // read zero for node i, about to push it
    | Locking                          // about to take done_lock
    | Testing                          // holds done_lock, about to test the loop condition
    | Committing                       // holds done_lock, decided to wait
    | MainAsleep                       // waiting on done_cond
    | ShuttingDown
    | Joining(w: nat)
    | Returned(code: int)

  /** Bookkeeping that no thread reads: where each dirty node is in its life. */
  datatype Phase =
    | Waiting
    | HandOfMain
    | HandOf(worker: nat)
    | Queued
    | Held(worker: nat)
    | Done
    | Dropped
    | Failed(worker: nat)

  datatype State = State(
    pending: seq<nat>,
    ring: Ring,
    shutdown: bool,
    hasError: bool,
    remaining: nat,
    workers: seq<Worker>,
    main: Main,
    phase: seq<Phase>,
    notified: seq<nat>,                // bookkeeping: dependents already visited, per node
    started: seq<nat>)                 // bookkeeping: how often each node was started

  datatype Action =
    | Pop(w: nat)
    | Check(w: nat)
    | Succeed(w: nat)
    | Fail(w: nat)
    | StoreError(w: nat)
    | BroadcastError(w: nat)
    | Notify(w: nat)
    | Push(w: nat, wake: Option<nat>)
    | Finish(w: nat)
    | Seed
    | PushSeed(wake: Option<nat>)
    | Lock
    | Test
    | Commit
    | ShutDown
    | Join
    | SpuriousWorker(w: nat)
    | SpuriousMain

  // ---- Ranges: what makes a state meaningful for a graph ----

  ghost predicate WorkerInRange(g: seq<Node>, p: Worker) {
    match p
    case Checking(d) => d < |g|
    case Running(d) => d < |g|
    case Notifying(d, i) => d < |g| && i <= |g[d].dependents|
    case Pushing(d, i) => d < |g| && i < |g[d].dependents|
    case Finishing(d) => d < |g|
    case _ => true
  }

  ghost predicate MainInRange(g: seq<Node>, n: nat, m: Main) {
    match m
    case Seeding(i) => i <= |g|
    case SeedPush(i) => i < |g|
    case Joining(w) => w <= n
    case _ => true
  }

  ghost predicate WorkersInRange(g: seq<Node>, workers: seq<Worker>) {
    forall w | 0 <= w < |workers| :: WorkerInRange(g, workers[w])
  }

  ghost predicate RingInRange(n: nat, r: Ring) {
    && r.head < |r.buffer| && r.tail < |r.buffer|
    && (forall k | 0 <= k < |r.buffer| :: r.buffer[k] < n)
  }

  ghost predicate InRange(g: seq<Node>, s: State) {
    && IdsInRange(g)
    && |s.pending| == |s.phase| == |s.notified| == |s.started| == |g|
    && WorkersInRange(g, s.workers)
    && MainInRange(g, |s.workers|, s.main)
    && RingInRange(|g|, s.ring)
  }

  // ---- The steps ----

  /** The main thread holds `done_lock`. */
  predicate DoneLocked(m: Main) {
    m.Testing? || m.Committing?
  }

  function WakeMain(m: Main): Main {
    if m.MainAsleep? then Locking else m
  }

  /** `pthread_cond_signal` wakes one sleeper if there is one. */
  predicate WakeOk(workers: seq<Worker>, wake: Option<nat>) {
    match wake
    case None => forall w | 0 <= w < |workers| :: !workers[w].Asleep?
    case Some(t) => t < |workers| && workers[t].Asleep?
  }

  function Wake(workers: seq<Worker>, wake: Option<nat>): (r: seq<Worker>)
    ensures |r| == |workers|
  {
    if wake.Some? && wake.value < |workers| then workers[wake.value := Popping] else workers
  }

  function WakeAll(workers: seq<Worker>): (r: seq<Worker>)
    ensures |r| == |workers|
  {
    seq(|workers|, w requires 0 <= w < |workers| => if workers[w].Asleep? then Popping else workers[w])
  }

  /** Only a target with a builder can report a failure. */
  predicate CanFail(n: Node) {
    n.decl.isTarget && n.decl.builder.Some?
  }

  predicate At(s: State, w: nat) {
    w < |s.workers|
  }

  predicate Enabled(g: seq<Node>, s: State, a: Action) {
    match a
    case Pop(w) => At(s, w) && s.workers[w].Popping?
    case Check(w) => At(s, w) && s.workers[w].Checking?
    case Succeed(w) => At(s, w) && s.workers[w].Running?
    case Fail(w) => At(s, w) && s.workers[w].Running? && s.workers[w].node < |g| && CanFail(g[s.workers[w].node])
    case StoreError(w) => At(s, w) && s.workers[w].Failing?
    case BroadcastError(w) => At(s, w) && s.workers[w].Signalling? && !DoneLocked(s.main)
    case Notify(w) => At(s, w) && s.workers[w].Notifying?
    case Push(w, wake) => At(s, w) && s.workers[w].Pushing? && WakeOk(s.workers, wake)
    case Finish(w) => At(s, w) && s.workers[w].Finishing? && !DoneLocked(s.main)
    case Seed => s.main.Seeding?
    case PushSeed(wake) => s.main.SeedPush? && WakeOk(s.workers, wake)
    case Lock => s.main.Locking?
    case Test => s.main.Testing?
    case Commit => s.main.Committing?
    case ShutDown => s.main.ShuttingDown?
    case Join => s.main.Joining? && (s.main.w < |s.workers| ==> s.workers[s.main.w].Exited?)
    case SpuriousWorker(w) => At(s, w) && s.workers[w].Asleep?
    case SpuriousMain => s.main.MainAsleep?
  }

  function Goto(s: State, w: nat, p: Worker): State
    requires At(s, w)
  {
    s.(workers := s.workers[w := p])
  }

  /** One pass through `queue_pop`. */
  function ApplyPop(g: seq<Node>, s: State, w: nat): State
    requires At(s, w) && |s.phase| == |g|
    requires s.ring.head < |s.ring.buffer| && s.ring.buffer[s.ring.head] < |g|
  {
    match PopOutcome(s.ring, s.shutdown)
    case Wait => Goto(s, w, Asleep)
    case Closed => Goto(s, w, Exited)
    case Item(d) => Goto(s, w, Checking(d)).(ring := s.ring.Pop(), phase := s.phase[d := Held(w)])
  }

  function ApplyCheck(s: State, w: nat, d: nat): State
    requires At(s, w) && d < |s.phase| == |s.started|
  {
    if s.hasError then Goto(s, w, Popping).(phase := s.phase[d := Dropped])
    else Goto(s, w, Running(d)).(started := s.started[d := s.started[d] + 1])
  }

  /** One turn of the loop over the dependents; the counter is a 32-bit atomic. */
  function ApplyNotify(g: seq<Node>, s: State, w: nat, d: nat, i: nat): State
    requires At(s, w) && d < |g| == |s.pending| == |s.phase| == |s.notified|
    requires i <= |g[d].dependents| && (i < |g[d].dependents| ==> g[d].dependents[i] < |g|)
  {
    if i == |g[d].dependents| then Goto(s, w, Finishing(d))
    else
      var x := g[d].dependents[i];
      var s1 := s.(notified := s.notified[d := i + 1]);
      if !Active(g, x) then Goto(s1, w, Notifying(d, i + 1))
      else
        var s2 := s1.(pending := s.pending[x := (s.pending[x] + U32 - 1) % U32]);
        if s.pending[x] == 1 then Goto(s2, w, Pushing(d, i)).(phase := s.phase[x := HandOf(w)])
        else Goto(s2, w, Notifying(d, i + 1))
  }

  function ApplyPush(s: State, w: nat, d: nat, i: nat, x: nat, wake: Option<nat>): State
    requires At(s, w) && x < |s.phase| && s.ring.tail < |s.ring.buffer|
  {
    Goto(s.(workers := Wake(s.workers, wake)), w, Notifying(d, i + 1))
      .(ring := s.ring.Push(x), phase := s.phase[x := Queued])
  }

  function ApplyFinish(s: State, w: nat, d: nat): State
    requires At(s, w) && d < |s.phase|
  {
    var left := (s.remaining + U64 - 1) % U64;
    Goto(s, w, Popping).(remaining := left, phase := s.phase[d := Done],
      main := if left == 0 then WakeMain(s.main) else s.main)
  }

  function ApplySeed(g: seq<Node>, s: State, i: nat): State
    requires i <= |g| == |s.pending| == |s.phase|
  {
    if i == |g| then s.(main := Locking)
    else if Active(g, i) && s.pending[i] == 0 then s.(main := SeedPush(i), phase := s.phase[i := HandOfMain])
    else s.(main := Seeding(i + 1))
  }

  function ApplyPushSeed(s: State, i: nat, wake: Option<nat>): State
    requires i < |s.phase| && s.ring.tail < |s.ring.buffer|
  {
    s.(ring := s.ring.Push(i), phase := s.phase[i := Queued], main := Seeding(i + 1), workers := Wake(s.workers, wake))
  }

  function ApplyJoin(s: State, j: nat): State {
    if j < |s.workers| then s.(main := Joining(j + 1))
    else s.(main := Returned(if s.hasError then 1 else 0))
  }

  function Apply(g: seq<Node>, s: State, a: Action): State
    requires InRange(g, s) && Enabled(g, s, a)
  {
    match a
    case Pop(w) => ApplyPop(g, s, w)
    case Check(w) => ApplyCheck(s, w, s.workers[w].node)
    case Succeed(w) => Goto(s, w, Notifying(s.workers[w].node, 0))
    case Fail(w) => Goto(s, w, Failing).(phase := s.phase[s.workers[w].node := Failed(w)])
    case StoreError(w) => Goto(s, w, Signalling).(hasError := true)
    case BroadcastError(w) => Goto(s, w, Popping).(main := WakeMain(s.main))
    case Notify(w) => ApplyNotify(g, s, w, s.workers[w].node, s.workers[w].i)
    case Push(w, wake) =>
      ApplyPush(s, w, s.workers[w].node, s.workers[w].i, g[s.workers[w].node].dependents[s.workers[w].i], wake)
    case Finish(w) => ApplyFinish(s, w, s.workers[w].node)
    case Seed => ApplySeed(g, s, s.main.i)
    case PushSeed(wake) => ApplyPushSeed(s, s.main.i, wake)
    case Lock => s.(main := Testing)
    case Test => s.(main := if s.remaining > 0 && !s.hasError then Committing else ShuttingDown)
    case Commit => s.(main := MainAsleep)
    case ShutDown => s.(shutdown := true, workers := WakeAll(s.workers), main := Joining(0))
    case Join => ApplyJoin(s, s.main.w)
    case SpuriousWorker(w) => Goto(s, w, Popping)
    case SpuriousMain => s.(main := Locking)
  }

  lemma StepKeepsWorkersInRange(g: seq<Node>, s: State, a: Action)
    requires InRange(g, s) && Enabled(g, s, a)
    ensures WorkersInRange(g, Apply(g, s, a).workers) && |Apply(g, s, a).workers| == |s.workers|
  {
    if a.Notify? || a.Push? {
      DependentsKeepWorkersInRange(g, s, a);
      hide Apply, Enabled, InRange;
    } else {
      hide MainInRange, IdsInRange;
    }
  }

  lemma DependentsKeepWorkersInRange(g: seq<Node>, s: State, a: Action)
    requires InRange(g, s) && Enabled(g, s, a) && (a.Notify? || a.Push?)
    ensures WorkersInRange(g, Apply(g, s, a).workers) && |Apply(g, s, a).workers| == |s.workers|
  {
    hide MainInRange, RingInRange;
  }

  lemma StepKeepsRingInRange(g: seq<Node>, s: State, a: Action)
    requires InRange(g, s) && Enabled(g, s, a)
    ensures RingInRange(|g|, Apply(g, s, a).ring)
  {
  }

  lemma StepKeepsSizes(g: seq<Node>, s: State, a: Action)
    requires InRange(g, s) && Enabled(g, s, a)
    ensures var t := Apply(g, s, a);
            |t.pending| == |t.phase| == |t.notified| == |t.started| == |g|
  {
  }

  lemma StepKeepsMainInRange(g: seq<Node>, s: State, a: Action)
    requires InRange(g, s) && Enabled(g, s, a)
    ensures MainInRange(g, |s.workers|, Apply(g, s, a).main)
  {
  }

  lemma StepKeepsRange(g: seq<Node>, s: State, a: Action)
    requires InRange(g, s) && Enabled(g, s, a)
    ensures InRange(g, Apply(g, s, a)) && |Apply(g, s, a).workers| == |s.workers|
  {
    hide Apply, Enabled, WorkersInRange, RingInRange, IdsInRange;
    StepKeepsWorkersInRange(g, s, a);
    StepKeepsRingInRange(g, s, a);
    StepKeepsSizes(g, s, a);
    StepKeepsMainInRange(g, s, a);
  }

  /** The state in which `zmm_bg_exec` has created its queue and its `n` workers. */
  function Initial(g: seq<Node>, capacity: nat, n: nat): State
    requires 0 < capacity
  {
    State(
      seq(|g|, i requires 0 <= i < |g| => g[i].marks.pendingDeps),
      EmptyRing(capacity), false, false, capacity,
      seq(n, _ => Popping), Seeding(0),
      seq(|g|, _ => Waiting), seq(|g|, _ => 0), seq(|g|, _ => 0))
  }

  // ---- Runs ----

  /** `s` evolves into `t` by the given actions. */
  ghost predicate Run(g: seq<Node>, s: State, acts: seq<Action>, t: State)
    decreases |acts|
  {
    && InRange(g, s)
    && if acts == [] then s == t
       else Enabled(g, s, acts[0]) && Run(g, Apply(g, s, acts[0]), acts[1..], t)
  }

  lemma {:induction false} RunAppend(g: seq<Node>, s: State, a: seq<Action>, m: State, b: seq<Action>, t: State)
    requires Run(g, s, a, m) && Run(g, m, b, t)
    ensures Run(g, s, a + b, t)
    decreases |a|
  {
    if a == [] {
      assert a + b == b;
    } else {
      RunAppend(g, Apply(g, s, a[0]), a[1..], m, b, t);
      assert (a + b)[1..] == a[1..] + b;
    }
  }
}
