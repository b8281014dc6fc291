/** The counters and the ownership invariant together, kept by every effect of a step. */
module CoreInvariant {
  import opened Basics
  import opened Graphs
  import opened Plans
  import opened TaskQueues
  import opened Schedulers
  import opened Ownership
  import opened OwnershipSteps
  import opened Counting

  /** The builder stage of `d` has begun. */
  ghost predicate Begun(g: seq<Node>, s: State, d: nat)
    requires InRange(g, s) && d < |g|
  {
    match s.phase[d]
    case Held(w) => w < |s.workers| && V(g, s, w).begun
    case Done => true
    case Failed(_) => true
    case _ => false
  }

  ghost predicate StartedOk(g: seq<Node>, s: State)
    requires InRange(g, s)
  {
    forall d | 0 <= d < |g| :: s.started[d] == if Begun(g, s, d) then 1 else 0
  }

  /** The dirty nodes that have not completed. */
  ghost function Undone(g: seq<Node>, phase: seq<Phase>): (r: set<nat>)
    requires |phase| == |g|
  {
    set d: nat | d < |g| && Active(g, d) && !phase[d].Done?
  }

  ghost predicate RemainingOk(g: seq<Node>, s: State) {
    && |s.phase| == |g|
    && s.remaining == |Undone(g, s.phase)| <= U64
  }

  ghost predicate Core(g: seq<Node>, s: State) {
    && Owned(g, s) && VisitedOk(g, s) && PendingOk(g, s) && StartedOk(g, s) && RemainingOk(g, s)
  }

  // ---- Visited and started counts ----

  lemma QuietKeepsCounts(g: seq<Node>, s: State, t: State)
    requires Quiet(g, s, t) && VisitedOk(g, s) && StartedOk(g, s)
    ensures VisitedOk(g, t) && StartedOk(g, t)
  {
  }

  lemma TakesKeepsCounts(g: seq<Node>, s: State, t: State, w: nat, d: nat)
    requires Takes(g, s, t, w, d) && s.phase[d].Queued? && Holders(g, s) && VisitedOk(g, s) && StartedOk(g, s)
    ensures VisitedOk(g, t) && StartedOk(g, t)
  {
  }

  lemma StartsKeepsCounts(g: seq<Node>, s: State, t: State, w: nat, d: nat)
    requires Starts(g, s, t, w, d) && Holders(g, s) && VisitedOk(g, s) && StartedOk(g, s)
    ensures VisitedOk(g, t) && StartedOk(g, t)
  {
  }

  lemma ReleasesKeepsCounts(g: seq<Node>, s: State, t: State, w: nat, d: nat, to: Phase)
    requires Releases(g, s, t, w, d, to) && Holders(g, s) && VisitedOk(g, s) && StartedOk(g, s)
    ensures VisitedOk(g, t) && StartedOk(g, t)
  {
  }

  lemma VisitsKeepsCounts(g: seq<Node>, s: State, t: State, w: nat, d: nat, i: nat)
    requires Visits(g, s, t, w, d, i) && Holders(g, s) && VisitedOk(g, s) && StartedOk(g, s)
    ensures VisitedOk(g, t) && StartedOk(g, t)
  {
  }

  lemma GrabsKeepsCounts(g: seq<Node>, s: State, t: State, w: nat, d: nat, i: nat, x: nat)
    requires Grabs(g, s, t, w, d, i, x) && s.phase[x].Waiting? && Holders(g, s) && VisitedOk(g, s) && StartedOk(g, s)
    ensures VisitedOk(g, t) && StartedOk(g, t)
  {
  }

  lemma PutsKeepsCounts(g: seq<Node>, s: State, t: State, w: nat, x: nat)
    requires Puts(g, s, t, w, x) && Holders(g, s) && Hands(g, s) && VisitedOk(g, s) && StartedOk(g, s)
    ensures VisitedOk(g, t) && StartedOk(g, t)
  {
  }

  lemma SeedGrabsKeepsCounts(g: seq<Node>, s: State, t: State, i: nat)
    requires SeedGrabs(g, s, t, i) && s.phase[i].Waiting? && Holders(g, s) && VisitedOk(g, s) && StartedOk(g, s)
    ensures VisitedOk(g, t) && StartedOk(g, t)
  {
  }

  lemma SeedPutsKeepsCounts(g: seq<Node>, s: State, t: State, i: nat)
    requires SeedPuts(g, s, t, i) && Holders(g, s) && Hands(g, s) && VisitedOk(g, s) && StartedOk(g, s)
    ensures VisitedOk(g, t) && StartedOk(g, t)
  {
  }

  // ---- The whole core ----

  lemma QuietKeepsCore(g: seq<Node>, s: State, t: State)
    requires Core(g, s) && Quiet(g, s, t) && t.remaining == s.remaining
    ensures Core(g, t)
  {
    hide Owned, VisitedOk, StartedOk, Quiet;
    QuietBasics(g, s, t);
    QuietKeepsOwned(g, s, t);
    QuietKeepsCounts(g, s, t);
  }

  lemma QuietBasics(g: seq<Node>, s: State, t: State)
    requires Quiet(g, s, t)
    ensures InRange(g, s) && InRange(g, t)
    ensures s.phase == t.phase && s.pending == t.pending && s.notified == t.notified
  {
  }

  lemma TakesKeepsCore(g: seq<Node>, s: State, t: State, w: nat, d: nat)
    requires Core(g, s) && Takes(g, s, t, w, d) && t.remaining == s.remaining
    ensures Core(g, t)
  {
    hide Holders, Hands, QueueHolds, VisitedOk, StartedOk, PendingOk, Ring.Contents, Ring.Pop, Ring.Valid;
    PopKeepsQueue(g, s.ring, s.phase, Held(w));
    TakesKeepsHolders(g, s, t, w, d);
    TakesKeepsCounts(g, s, t, w, d);
    SamePendingOk(g, s, t);
    UndoneMoves(g, s.phase, d, Held(w));
    hide Undone;
  }

  lemma SamePendingOk(g: seq<Node>, s: State, t: State)
    requires PendingOk(g, s) && s.pending == t.pending && s.notified == t.notified
    ensures PendingOk(g, t)
  {
  }

  lemma StartsKeepsCore(g: seq<Node>, s: State, t: State, w: nat, d: nat)
    requires Core(g, s) && Starts(g, s, t, w, d) && t.remaining == s.remaining
    ensures Core(g, t)
  {
    hide Holders, Hands, QueueHolds, VisitedOk, StartedOk, PendingOk, Ring.Contents, Ring.Valid;
    StartsKeepsHolders(g, s, t, w, d);
    StartsKeepsCounts(g, s, t, w, d);
    SamePendingOk(g, s, t);
  }

  lemma ReleasesKeepsCore(g: seq<Node>, s: State, t: State, w: nat, d: nat, to: Phase)
    requires Core(g, s) && Releases(g, s, t, w, d, to)
    requires to.Done? ==> s.remaining > 0 ==> t.remaining == s.remaining - 1
    requires !to.Done? ==> t.remaining == s.remaining
    ensures Core(g, t) && (to.Done? ==> s.remaining > 0)
  {
    HeldBy(g, s, w);
    hide Holders, Hands, QueueHolds, VisitedOk, StartedOk, PendingOk, Ring.Contents, Ring.Valid;
    ReleasesKeepsHolders(g, s, t, w, d, to);
    ReleasesKeepsCounts(g, s, t, w, d, to);
    QueueUnaffected(g, s.ring, s.phase, d, to);
    SamePendingOk(g, s, t);
    if to.Done? {
      assert d in Undone(g, s.phase);
    }
    UndoneMoves(g, s.phase, d, to);
    hide Undone;
  }

  /** Moving one node: the undone nodes become fewer exactly if it is done now. */
  lemma UndoneMoves(g: seq<Node>, phase: seq<Phase>, d: nat, to: Phase)
    requires |phase| == |g| && d < |g| && !phase[d].Done?
    ensures !to.Done? ==> Undone(g, phase[d := to]) == Undone(g, phase)
    ensures to.Done? && Active(g, d) ==> |Undone(g, phase[d := to])| == |Undone(g, phase)| - 1
  {
    if to.Done? && Active(g, d) {
      assert Undone(g, phase[d := to]) == Undone(g, phase) - {d};
    }
  }

  /** The node a worker holds is an active one, marked as held. */
  lemma HeldBy(g: seq<Node>, s: State, w: nat)
    requires InRange(g, s) && Holders(g, s) && OnlyActive(g, s.phase)
    requires w < |s.workers| && V(g, s, w).node.Some?
    ensures var d := V(g, s, w).node.value; d < |g| && s.phase[d] == Held(w) && Active(g, d)
  {
  }

  lemma VisitsKeepsCore(g: seq<Node>, s: State, t: State, w: nat, d: nat, i: nat)
    requires Core(g, s) && Visits(g, s, t, w, d, i) && t.remaining == s.remaining
    ensures Core(g, t)
  {
    HeldBy(g, s, w);
    assert s.notified[d] == i;
    if Active(g, g[d].dependents[i]) { VisitFindsDebt(g, s, d, g[d].dependents[i]); }
    VisitsKeepsPending(g, s, t, w, d, i);
    VisitsKeepsHolders(g, s, t, w, d, i);
    VisitsKeepsCounts(g, s, t, w, d, i);
    VisitsKeepsWaiting(g, s, t, w, d, i);
  }

  lemma VisitsKeepsWaiting(g: seq<Node>, s: State, t: State, w: nat, d: nat, i: nat)
    requires Visits(g, s, t, w, d, i) && WaitingOk(g, s) && PendingOk(g, s) && PendingOk(g, t)
    requires Active(g, g[d].dependents[i]) ==> s.pending[g[d].dependents[i]] > 0
    ensures WaitingOk(g, t)
  {
    hide Owed, VisitedInRange;
  }

  lemma GrabsKeepsCore(g: seq<Node>, s: State, t: State, w: nat, d: nat, i: nat, x: nat)
    requires Core(g, s) && Grabs(g, s, t, w, d, i, x) && t.remaining == s.remaining
    ensures Core(g, t)
  {
    HeldBy(g, s, w);
    assert s.notified[d] == i;
    assert s.phase[x].Waiting?;
    GrabsKeepsPending(g, s, t, w, d, i, x);
    hide Holders, Hands, QueueHolds, VisitedOk, StartedOk, PendingOk, Ring.Contents, Ring.Valid;
    GrabsKeepsHolders(g, s, t, w, d, i, x);
    GrabsKeepsCounts(g, s, t, w, d, i, x);
    QueueUnaffected(g, s.ring, s.phase, x, HandOf(w));
    UndoneMoves(g, s.phase, x, HandOf(w));
    hide Undone;
  }

  lemma HandHolds(g: seq<Node>, s: State, w: nat, x: nat)
    requires InRange(g, s) && Hands(g, s) && w < |s.workers| && V(g, s, w).hand == Some(x)
    ensures x < |g| && s.phase[x] == HandOf(w)
  {
  }

  lemma PutsKeepsCore(g: seq<Node>, s: State, t: State, w: nat, x: nat)
    requires Core(g, s) && Puts(g, s, t, w, x) && t.remaining == s.remaining
    ensures Core(g, t)
  {
    hide Holders, Hands, QueueHolds, VisitedOk, StartedOk, PendingOk, Ring.Contents, Ring.Valid;
    HandHolds(g, s, w, x);
    PutsKeepsHolders(g, s, t, w, x);
    PutsKeepsCounts(g, s, t, w, x);
    PushKeepsQueue(g, s.ring, s.phase, x);
    SamePendingOk(g, s, t);
    UndoneMoves(g, s.phase, x, Queued);
    hide Undone;
  }

  /** A seed is clean if the node never had a dirty input. */
  lemma SeedGrabsKeepsCore(g: seq<Node>, s: State, t: State, i: nat)
    requires Core(g, s) && SeedGrabs(g, s, t, i) && t.remaining == s.remaining
    requires g[i].marks.pendingDeps == 0
    ensures Core(g, t)
  {
    assert s.phase[i].Waiting?;
    hide Holders, Hands, QueueHolds, VisitedOk, StartedOk, PendingOk, Ring.Contents, Ring.Valid;
    SeedGrabsKeepsHolders(g, s, t, i);
    SeedGrabsKeepsCounts(g, s, t, i);
    QueueUnaffected(g, s.ring, s.phase, i, HandOfMain);
    SamePendingOk(g, s, t);
    UndoneMoves(g, s.phase, i, HandOfMain);
    hide Undone;
  }

  lemma SeedPutsKeepsCore(g: seq<Node>, s: State, t: State, i: nat)
    requires Core(g, s) && SeedPuts(g, s, t, i) && t.remaining == s.remaining
    ensures Core(g, t)
  {
    assert s.phase[i] == HandOfMain;
    hide Holders, Hands, QueueHolds, VisitedOk, StartedOk, PendingOk, Ring.Contents, Ring.Valid;
    SeedPutsKeepsHolders(g, s, t, i);
    SeedPutsKeepsCounts(g, s, t, i);
    PushKeepsQueue(g, s.ring, s.phase, i);
    SamePendingOk(g, s, t);
    UndoneMoves(g, s.phase, i, Queued);
    hide Undone;
  }
}
