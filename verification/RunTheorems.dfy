/** What holds in every reachable state of a clean run: exactly-once scheduling, the meaning of the
    counters, order, failure containment, queue capacity and the return code. */
module RunTheorems {
  import opened Basics
  import opened Graphs
  import opened Plans
  import opened TaskQueues
  import opened Schedulers
  import opened Ownership
  import opened OwnershipSteps
  import opened Counting
  import opened CoreInvariant
  import opened Steps
  import opened WaitingInvariant

  // ---- Clean runs and the guard that makes a run clean ----

  ghost predicate CleanRun(g: seq<Node>, s: State, acts: seq<Action>, t: State)
    decreases |acts|
  {
    && InRange(g, s)
    && if acts == [] then s == t
       else Enabled(g, s, acts[0]) && Clean(g, s, acts[0]) && CleanRun(g, Apply(g, s, acts[0]), acts[1..], t)
  }

  lemma {:induction false} CleanRunKeepsInv(g: seq<Node>, s: State, acts: seq<Action>, t: State)
    requires Inv(g, s) && CleanRun(g, s, acts, t)
    ensures Inv(g, t)
    decreases |acts|
  {
    if acts != [] {
      hide Inv, InRange, Enabled, Clean, Apply;
      StepKeepsInv(g, s, acts[0]);
      CleanRunKeepsInv(g, Apply(g, s, acts[0]), acts[1..], t);
    }
  }

  /** The whole invariant in every state that a clean run reaches, for every number of workers. */
  lemma Reachable(g: seq<Node>, n: nat, acts: seq<Action>, t: State)
    requires Prepared(g) && Fits(g) && ActiveSet(g) != {} && n > 0
    requires CleanRun(g, Start(g, n), acts, t)
    ensures Inv(g, t)
  {
    StartsInInv(g, n);
    CleanRunKeepsInv(g, Start(g, n), acts, t);
  }

  predicate Scanning(m: Main) {
    m.Seeding? || m.SeedPush?
  }

  /** The step is an `atomic_fetch_sub` that happens before the seed scan has ended. */
  ghost predicate EarlyDecrement(g: seq<Node>, s: State, a: Action)
    requires InRange(g, s) && Enabled(g, s, a)
  {
    a.Notify? && Scanning(s.main)
    && var d, i := s.workers[a.w].node, s.workers[a.w].i;
       i < |g[d].dependents| && Active(g, g[d].dependents[i])
  }

  /** Runs in which popping and building may overlap the seed scan, but no counter is decremented. */
  ghost predicate GuardedRun(g: seq<Node>, s: State, acts: seq<Action>, t: State)
    decreases |acts|
  {
    && InRange(g, s)
    && if acts == [] then s == t
       else && Enabled(g, s, acts[0]) && !EarlyDecrement(g, s, acts[0])
            && GuardedRun(g, Apply(g, s, acts[0]), acts[1..], t)
  }

  ghost predicate CountersUntouched(g: seq<Node>, s: State) {
    |s.pending| == |g| && forall i: nat | i < |g| :: s.pending[i] == g[i].marks.pendingDeps
  }

  lemma GuardedStep(g: seq<Node>, s: State, a: Action)
    requires InRange(g, s) && Enabled(g, s, a) && !EarlyDecrement(g, s, a)
    requires Scanning(s.main) ==> CountersUntouched(g, s)
    ensures Clean(g, s, a)
    ensures Scanning(Apply(g, s, a).main) ==> CountersUntouched(g, Apply(g, s, a))
  {
  }

  lemma {:induction false} GuardedRunIsClean(g: seq<Node>, s: State, acts: seq<Action>, t: State)
    requires GuardedRun(g, s, acts, t)
    requires Scanning(s.main) ==> CountersUntouched(g, s)
    ensures CleanRun(g, s, acts, t)
    decreases |acts|
  {
    if acts != [] {
      hide InRange, Enabled, Clean, Apply, EarlyDecrement, CountersUntouched;
      GuardedStep(g, s, acts[0]);
      GuardedRunIsClean(g, Apply(g, s, acts[0]), acts[1..], t);
    }
  }

  lemma GuardedReachable(g: seq<Node>, n: nat, acts: seq<Action>, t: State)
    requires Prepared(g) && Fits(g) && ActiveSet(g) != {} && n > 0
    requires GuardedRun(g, Start(g, n), acts, t)
    ensures CleanRun(g, Start(g, n), acts, t) && Inv(g, t)
  {
    GuardedRunIsClean(g, Start(g, n), acts, t);
    Reachable(g, n, acts, t);
  }

  // ---- Exactly once ----

  ghost function One(b: bool): nat { if b then 1 else 0 }

  /** The node still waits: for its dirty inputs or for the seed scan. */
  ghost predicate StillWaits(g: seq<Node>, s: State, d: nat)
    requires InRange(g, s) && d < |g|
  {
    if g[d].marks.pendingDeps > 0 then s.pending[d] > 0 else Unscanned(s.main, d)
  }

  ghost function HandsOn(g: seq<Node>, s: State, d: nat): (r: set<nat>)
    requires InRange(g, s)
  {
    set w: nat | w < |s.workers| && V(g, s, w).hand == Some(d)
  }

  ghost function HoldersOf(g: seq<Node>, s: State, d: nat): (r: set<nat>)
    requires InRange(g, s)
  {
    set w: nat | w < |s.workers| && V(g, s, w).node == Some(d)
  }

  /** Every place where a node can be, counted: waiting, in a hand on its way to the queue, in the
      queue, with a worker, or at its end. */
  ghost function Places(g: seq<Node>, s: State, d: nat): nat
    requires InRange(g, s) && d < |g| && 0 < |s.ring.buffer|
  {
    One(StillWaits(g, s, d))
    + |HandsOn(g, s, d)| + One(s.main == SeedPush(d))
    + multiset(s.ring.Contents())[d]
    + |HoldersOf(g, s, d)|
    + One(Terminal(s.phase[d]))
  }

  lemma {:induction false} NoDuplicatesCount(s: seq<nat>, x: nat)
    requires NoDuplicates(s)
    ensures multiset(s)[x] == One(x in s)
    decreases |s|
  {
    if s != [] {
      var init, last := s[..|s| - 1], s[|s| - 1];
      assert s == init + [last];
      NoDuplicatesCount(init, x);
    }
  }

  lemma HandsCounted(g: seq<Node>, s: State, d: nat)
    requires InRange(g, s) && Hands(g, s) && d < |g|
    ensures |HandsOn(g, s, d)| == One(s.phase[d].HandOf?)
    ensures s.main == SeedPush(d) <==> s.phase[d].HandOfMain?
  {
    if s.phase[d].HandOf? {
      assert HandsOn(g, s, d) == {s.phase[d].worker};
    } else {
      assert HandsOn(g, s, d) == {};
    }
  }

  lemma HoldersCounted(g: seq<Node>, s: State, d: nat)
    requires InRange(g, s) && Holders(g, s) && d < |g|
    ensures |HoldersOf(g, s, d)| == One(s.phase[d].Held?)
  {
    if s.phase[d].Held? {
      assert HoldersOf(g, s, d) == {s.phase[d].worker};
    } else {
      assert HoldersOf(g, s, d) == {};
    }
  }

  lemma QueueCounted(g: seq<Node>, s: State, d: nat)
    requires InRange(g, s) && QueueHolds(g, s.ring, s.phase) && d < |g|
    ensures 0 < |s.ring.buffer| && multiset(s.ring.Contents())[d] == One(s.phase[d].Queued?)
  {
    hide Ring.Contents;
    NoDuplicatesCount(s.ring.Contents(), d);
    ContentsCount(s.ring);
  }

  lemma ContentsCount(r: Ring)
    requires r.Valid()
    ensures |r.Contents()| == r.count
  {
  }

  /** In every reachable state each dirty node is in exactly one place, and its builder stage has
      begun at most once: once it has left its worker it never comes back. */
  lemma ExactlyOnce(g: seq<Node>, s: State, d: nat)
    requires Inv(g, s) && d < |g| && Active(g, d)
    ensures InRange(g, s) && 0 < |s.ring.buffer|
    ensures Places(g, s, d) == 1
    ensures s.started[d] <= 1
    ensures s.started[d] == 1 <==>
        s.phase[d].Done? || s.phase[d].Failed? || exists w <- HoldersOf(g, s, d) :: V(g, s, w).begun
  {
    hide Ring.Contents, Ring.Valid, ErrorsOk, MainWaits, MainLeft, QueueServed, ShutdownOk, JoinedOk, VisitedOk,
         PendingOk, QueueHolds, RemainingOk;
    HandsCounted(g, s, d);
    HoldersCounted(g, s, d);
    QueueCounted(g, s, d);
    if s.phase[d].Held? { assert s.phase[d].worker in HoldersOf(g, s, d); }
  }

  // ---- The queue never overflows ----

  /** `queue_push` does not check for space, and never needs to. */
  lemma NeverOverflows(g: seq<Node>, s: State, a: Action)
    requires Inv(g, s) && Enabled(g, s, a) && (a.Push? || a.PushSeed?)
    ensures s.ring.Valid() && s.ring.Capacity() == |ActiveSet(g)| && s.ring.count < s.ring.Capacity()
    ensures Apply(g, s, a).ring.Contents() == s.ring.Contents() +
              [if a.Push? then g[s.workers[a.w].node].dependents[s.workers[a.w].i] else s.main.i]
  {
    hide Ring.Contents, ErrorsOk, MainWaits, MainLeft, QueueServed, ShutdownOk, JoinedOk, VisitedOk, PendingOk,
         RemainingOk, StartedOk;
    var x := if a.Push? then g[s.workers[a.w].node].dependents[s.workers[a.w].i] else s.main.i;
    if a.Push? { assert V(g, s, a.w).hand == Some(x); }
    RoomFor(g, s.ring, s.phase, x);
    PushContents(s.ring, x);
  }
}
