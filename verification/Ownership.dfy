/** The inductive invariant of the worker pool, first part: who owns which dirty node. */
module Ownership {
  import opened Basics
  import opened Graphs
  import opened Plans
  import opened TaskQueues
  import opened Schedulers

  /** What the invariants need to know about a worker's program counter. */
  datatype View = View(node: Option<nat>, hand: Option<nat>, begun: bool, visited: nat)

  const Idle := View(None, None, false, 0)

  /** The node a worker holds, the dependent it is about to push, whether it has started the node,
      and how many of the dependents it has visited. */
  ghost function ViewOf(g: seq<Node>, p: Worker): View
    requires IdsInRange(g) && WorkerInRange(g, p)
  {
    match p
    case Checking(d) => View(Some(d), None, false, 0)
    case Running(d) => View(Some(d), None, true, 0)
    case Notifying(d, i) => View(Some(d), None, true, i)
    case Pushing(d, i) => View(Some(d), Some(g[d].dependents[i]), true, i + 1)
    case Finishing(d) => View(Some(d), None, true, |g[d].dependents|)
    case _ => Idle
  }

  ghost function V(g: seq<Node>, s: State, w: nat): View
    requires InRange(g, s) && w < |s.workers|
  {
    ViewOf(g, s.workers[w])
  }

  /** A worker holds a node exactly if the node is marked as held by it. */
  ghost predicate Holders(g: seq<Node>, s: State)
    requires InRange(g, s)
  {
    && (forall w: nat | w < |s.workers| && V(g, s, w).node.Some? ::
          V(g, s, w).node.value < |g| && s.phase[V(g, s, w).node.value] == Held(w))
    && (forall d | 0 <= d < |g| && s.phase[d].Held? ::
          s.phase[d].worker < |s.workers| && V(g, s, s.phase[d].worker).node == Some(d))
  }

  /** The same for dependents on their way into the queue. */
  ghost predicate Hands(g: seq<Node>, s: State)
    requires InRange(g, s)
  {
    && (forall w: nat | w < |s.workers| && V(g, s, w).hand.Some? ::
          V(g, s, w).hand.value < |g| && s.phase[V(g, s, w).hand.value] == HandOf(w))
    && (forall x | 0 <= x < |g| && s.phase[x].HandOf? ::
          s.phase[x].worker < |s.workers| && V(g, s, s.phase[x].worker).hand == Some(x))
    && (forall x | 0 <= x < |g| :: s.phase[x].HandOfMain? <==> s.main == SeedPush(x))
  }

  ghost predicate OnlyActive(g: seq<Node>, phase: seq<Phase>)
    requires |phase| == |g|
  {
    forall d | 0 <= d < |g| && !phase[d].Waiting? :: Active(g, d)
  }

  ghost predicate NoDuplicates(s: seq<nat>) {
    forall i, j | 0 <= i < j < |s| :: s[i] != s[j]
  }

  /** The ring is a proper queue; it holds the queued nodes, each once. */
  ghost predicate QueueHolds(g: seq<Node>, ring: Ring, phase: seq<Phase>)
    requires |phase| == |g|
  {
    && ring.Valid() && ring.Capacity() == |ActiveSet(g)|
    && NoDuplicates(ring.Contents())
    && (forall k | 0 <= k < ring.count :: ring.Contents()[k] < |g| && phase[ring.Contents()[k]].Queued?)
    && (forall x: nat | x < |g| && phase[x].Queued? :: x in ring.Contents())
  }

  /** The seed scan has not reached node `d` yet. */
  predicate Unscanned(m: Main, d: nat) {
    match m
    case Seeding(i) => i <= d
    case SeedPush(i) => i < d
    case _ => false
  }

  /** A dirty node waits exactly as long as it has undecremented dirty inputs, or, if it never
      had one, until the seed scan reaches it. */
  ghost predicate WaitingOk(g: seq<Node>, s: State)
    requires InRange(g, s)
  {
    forall d: nat | d < |g| && Active(g, d) ::
      s.phase[d].Waiting? <==> if g[d].marks.pendingDeps > 0 then s.pending[d] > 0 else Unscanned(s.main, d)
  }

  ghost predicate Owned(g: seq<Node>, s: State) {
    && InRange(g, s)
    && Holders(g, s) && Hands(g, s) && OnlyActive(g, s.phase)
    && QueueHolds(g, s.ring, s.phase) && WaitingOk(g, s)
  }

  // ---- Quiet steps: no node changes its place ----

  ghost predicate Quiet(g: seq<Node>, s: State, t: State) {
    && InRange(g, s) && InRange(g, t) && |s.workers| == |t.workers|
    && s.phase == t.phase && s.ring == t.ring && s.pending == t.pending
    && s.notified == t.notified && s.started == t.started
    && (forall w: nat | w < |s.workers| :: V(g, s, w) == V(g, t, w))
    && (forall d: nat | d < |g| && Active(g, d) && g[d].marks.pendingDeps == 0 && Unscanned(s.main, d) ::
          Unscanned(t.main, d))
    && (forall d: nat | d < |g| && Unscanned(t.main, d) :: Unscanned(s.main, d))
    && (forall d: nat | d < |g| :: s.main == SeedPush(d) <==> t.main == SeedPush(d))
  }

  lemma QuietKeepsOwned(g: seq<Node>, s: State, t: State)
    requires Owned(g, s) && Quiet(g, s, t)
    ensures Owned(g, t)
  {
    QuietKeepsHolders(g, s, t);
    QuietKeepsHands(g, s, t);
    QuietKeepsWaiting(g, s, t);
  }

  lemma QuietKeepsHolders(g: seq<Node>, s: State, t: State)
    requires InRange(g, s) && Holders(g, s) && Quiet(g, s, t)
    ensures Holders(g, t)
  {
  }

  lemma QuietKeepsHands(g: seq<Node>, s: State, t: State)
    requires InRange(g, s) && Hands(g, s) && Quiet(g, s, t)
    ensures Hands(g, t)
  {
  }

  lemma QuietKeepsWaiting(g: seq<Node>, s: State, t: State)
    requires InRange(g, s) && WaitingOk(g, s) && Quiet(g, s, t)
    ensures WaitingOk(g, t)
  {
  }

  // ---- Steps that move one node, by their effect ----

  /** Every worker but `w` keeps its place, and the main thread keeps its distance to the unscanned nodes. */
  ghost predicate OnlyWorker(g: seq<Node>, s: State, t: State, w: nat) {
    && InRange(g, s) && InRange(g, t) && |s.workers| == |t.workers| && w < |s.workers|
    && (forall v: nat | v < |s.workers| && v != w :: V(g, s, v) == V(g, t, v))
    && (forall d: nat | d < |g| :: Unscanned(s.main, d) == Unscanned(t.main, d))
    && (forall d: nat | d < |g| :: s.main == SeedPush(d) <==> t.main == SeedPush(d))
  }

  /** Worker `w` pops node `d`. */
  ghost predicate Takes(g: seq<Node>, s: State, t: State, w: nat, d: nat) {
    && OnlyWorker(g, s, t, w) && d < |g|
    && V(g, s, w) == Idle && V(g, t, w) == View(Some(d), None, false, 0)
    && s.ring.count > 0 && d == s.ring.Front() && t.ring == s.ring.Pop()
    && t.phase == s.phase[d := Held(w)]
    && t.pending == s.pending && t.notified == s.notified && t.started == s.started
  }

  /** Worker `w` starts node `d`. */
  ghost predicate Starts(g: seq<Node>, s: State, t: State, w: nat, d: nat) {
    && OnlyWorker(g, s, t, w) && d < |g|
    && V(g, s, w) == View(Some(d), None, false, 0) && V(g, t, w) == View(Some(d), None, true, 0)
    && t.ring == s.ring && t.phase == s.phase && t.pending == s.pending && t.notified == s.notified
    && t.started == s.started[d := s.started[d] + 1]
  }

  /** Worker `w` lets go of node `d` for good. */
  ghost predicate Releases(g: seq<Node>, s: State, t: State, w: nat, d: nat, to: Phase) {
    && OnlyWorker(g, s, t, w) && d < |g|
    && V(g, s, w).node == Some(d) && V(g, s, w).hand == None && V(g, t, w) == Idle
    && (match to
        case Dropped => !V(g, s, w).begun
        case Failed(v) => v == w && V(g, s, w).begun && V(g, s, w).visited == 0
        case Done => V(g, s, w).begun && V(g, s, w).visited == |g[d].dependents|
        case _ => false)
    && t.ring == s.ring && t.phase == s.phase[d := to] && t.pending == s.pending
    && t.notified == s.notified && t.started == s.started
  }

  /** Worker `w` visits dependent `i` of `d` and does not have to push it. */
  ghost predicate Visits(g: seq<Node>, s: State, t: State, w: nat, d: nat, i: nat) {
    && OnlyWorker(g, s, t, w) && d < |g| && i < |g[d].dependents|
    && V(g, s, w) == View(Some(d), None, true, i) && V(g, t, w) == View(Some(d), None, true, i + 1)
    && t.ring == s.ring && t.phase == s.phase && t.started == s.started
    && t.notified == s.notified[d := i + 1]
    && var x := g[d].dependents[i];
       if Active(g, x) then s.pending[x] != 1 && t.pending == s.pending[x := (s.pending[x] + U32 - 1) % U32]
       else t.pending == s.pending
  }

  /** Worker `w` brings the count of dependent `i` of `d` to zero. */
  ghost predicate Grabs(g: seq<Node>, s: State, t: State, w: nat, d: nat, i: nat, x: nat) {
    && OnlyWorker(g, s, t, w) && d < |g| && i < |g[d].dependents| && x == g[d].dependents[i] && Active(g, x)
    && V(g, s, w) == View(Some(d), None, true, i) && V(g, t, w) == View(Some(d), Some(x), true, i + 1)
    && t.ring == s.ring && t.started == s.started
    && t.notified == s.notified[d := i + 1]
    && s.pending[x] == 1 && t.pending == s.pending[x := 0]
    && t.phase == s.phase[x := HandOf(w)]
  }

  /** Worker `w` pushes the dependent `x` it holds in its hand. */
  ghost predicate Puts(g: seq<Node>, s: State, t: State, w: nat, x: nat) {
    && OnlyWorker(g, s, t, w) && x < |g|
    && V(g, s, w).hand == Some(x) && V(g, t, w) == V(g, s, w).(hand := None)
    && t.ring == s.ring.Push(x) && t.phase == s.phase[x := Queued]
    && t.pending == s.pending && t.notified == s.notified && t.started == s.started
  }

  ghost predicate OnlyMain(g: seq<Node>, s: State, t: State) {
    && InRange(g, s) && InRange(g, t) && |s.workers| == |t.workers|
    && (forall v: nat | v < |s.workers| :: V(g, s, v) == V(g, t, v))
    && t.pending == s.pending && t.notified == s.notified && t.started == s.started
  }

  /** The seed scan reads zero for the dirty node `i`. */
  ghost predicate SeedGrabs(g: seq<Node>, s: State, t: State, i: nat) {
    && OnlyMain(g, s, t) && i < |g| && Active(g, i) && s.pending[i] == 0
    && s.main == Seeding(i) && t.main == SeedPush(i)
    && t.ring == s.ring && t.phase == s.phase[i := HandOfMain]
  }

  ghost predicate SeedPuts(g: seq<Node>, s: State, t: State, i: nat) {
    && OnlyMain(g, s, t) && i < |g|
    && s.main == SeedPush(i) && t.main == Seeding(i + 1)
    && t.ring == s.ring.Push(i) && t.phase == s.phase[i := Queued]
  }
}
