/** The meaning of the `pending_deps` counters: the decrements a node is still owed by its dirty inputs. */
module Counting {
  import opened Basics
  import opened Graphs
  import opened Plans
  import opened Schedulers
  import opened Ownership

  /** Occurrences of `d` among the dependents of `m` from position `from` on. */
  ghost function OwedBy(g: seq<Node>, m: nat, from: nat, d: nat): nat
    requires m < |g| && from <= |g[m].dependents|
  {
    if Active(g, m) then multiset(g[m].dependents[from..])[d] else 0
  }

  ghost predicate VisitedInRange(g: seq<Node>, visited: seq<nat>) {
    |visited| == |g| && forall m | 0 <= m < |g| :: visited[m] <= |g[m].dependents|
  }

  /** What the dirty nodes below `k` still owe to `d`. */
  ghost function Owed(g: seq<Node>, visited: seq<nat>, d: nat, k: nat): nat
    requires VisitedInRange(g, visited) && k <= |g|
  {
    if k == 0 then 0 else Owed(g, visited, d, k - 1) + OwedBy(g, k - 1, visited[k - 1], d)
  }

  /** How many dependents of `m` have been visited, read off the state. */
  ghost function Progress(g: seq<Node>, s: State, m: nat): nat
    requires InRange(g, s) && m < |g|
  {
    match s.phase[m]
    case Done => |g[m].dependents|
    case Held(w) => if w < |s.workers| then V(g, s, w).visited else 0
    case _ => 0
  }

  ghost predicate VisitedOk(g: seq<Node>, s: State)
    requires InRange(g, s)
  {
    forall m | 0 <= m < |g| :: s.notified[m] == Progress(g, s, m)
  }

  ghost predicate PendingOk(g: seq<Node>, s: State) {
    && |s.pending| == |g| && VisitedInRange(g, s.notified)
    && forall d: nat | d < |g| && Active(g, d) ::
         s.pending[d] == Owed(g, s.notified, d, |g|) && s.pending[d] <= g[d].marks.pendingDeps < U32
  }

  // ---- One visit pays one decrement ----

  lemma SuffixStep(s: seq<nat>, i: nat, d: nat)
    requires i < |s|
    ensures multiset(s[i..])[d] == multiset(s[i + 1..])[d] + if s[i] == d then 1 else 0
  {
    assert s[i..] == [s[i]] + s[i + 1..];
  }

  lemma {:induction false} OwedVisit(g: seq<Node>, visited: seq<nat>, d: nat, k: nat, m: nat)
    requires VisitedInRange(g, visited) && k <= |g|
    requires m < |g| && Active(g, m) && visited[m] < |g[m].dependents|
    ensures var visited' := visited[m := visited[m] + 1];
            && VisitedInRange(g, visited')
            && Owed(g, visited, d, k) ==
                 Owed(g, visited', d, k) + if m < k && g[m].dependents[visited[m]] == d then 1 else 0
  {
    if k > 0 {
      OwedVisit(g, visited, d, k - 1, m);
      if m == k - 1 { SuffixStep(g[m].dependents, visited[m], d); }
    }
  }

  lemma VisitsKeepsPending(g: seq<Node>, s: State, t: State, w: nat, d: nat, i: nat)
    requires Visits(g, s, t, w, d, i) && PendingOk(g, s) && s.notified[d] == i && Active(g, d)
    ensures PendingOk(g, t)
  {
    forall x: nat | x < |g| && Active(g, x)
      ensures t.pending[x] == Owed(g, t.notified, x, |g|) && t.pending[x] <= g[x].marks.pendingDeps
    {
      OwedVisit(g, s.notified, x, |g|, d);
    }
  }

  lemma GrabsKeepsPending(g: seq<Node>, s: State, t: State, w: nat, d: nat, i: nat, x: nat)
    requires Grabs(g, s, t, w, d, i, x) && PendingOk(g, s) && s.notified[d] == i && Active(g, d)
    ensures PendingOk(g, t)
  {
    forall y: nat | y < |g| && Active(g, y)
      ensures t.pending[y] == Owed(g, t.notified, y, |g|) && t.pending[y] <= g[y].marks.pendingDeps
    {
      OwedVisit(g, s.notified, y, |g|, d);
    }
  }

  /** A visit of an active dependent finds a positive counter. */
  lemma VisitFindsDebt(g: seq<Node>, s: State, d: nat, x: nat)
    requires PendingOk(g, s) && IdsInRange(g) && d < |g| && Active(g, d) && s.notified[d] < |g[d].dependents|
    requires x == g[d].dependents[s.notified[d]] && Active(g, x)
    ensures s.pending[x] > 0
  {
    OwedVisit(g, s.notified, x, |g|, d);
  }

  /** A counter at zero means that every dirty input has visited all its occurrences of the node. */
  lemma {:induction false} NothingOwed(g: seq<Node>, visited: seq<nat>, d: nat, k: nat, m: nat)
    requires VisitedInRange(g, visited) && k <= |g| && Owed(g, visited, d, k) == 0
    requires m < k && Active(g, m)
    ensures d !in g[m].dependents[visited[m]..]
  {
    if m < k - 1 { NothingOwed(g, visited, d, k - 1, m); }
  }

  lemma {:induction false} SomethingOwed(g: seq<Node>, visited: seq<nat>, d: nat, k: nat) returns (m: nat)
    requires VisitedInRange(g, visited) && k <= |g| && Owed(g, visited, d, k) > 0
    ensures m < k && Active(g, m) && d in g[m].dependents[visited[m]..]
  {
    if OwedBy(g, k - 1, visited[k - 1], d) > 0 { m := k - 1; } else { m := SomethingOwed(g, visited, d, k - 1); }
  }

  // ---- The initial counters ----

  /** Positions of `ids` that hold a dirty node below `k`. */
  ghost function DirtyBelow(g: seq<Node>, ids: seq<nat>, k: nat): nat
    requires forall j | 0 <= j < |ids| :: ids[j] < |g|
    decreases |ids|
  {
    if ids == [] then 0
    else
      var x := ids[|ids| - 1];
      DirtyBelow(g, ids[..|ids| - 1], k) + if x < k && g[x].marks.isDirty then 1 else 0
  }

  lemma {:induction false} DirtyBelowStep(g: seq<Node>, ids: seq<nat>, k: nat)
    requires k < |g| && forall j | 0 <= j < |ids| :: ids[j] < |g|
    ensures DirtyBelow(g, ids, k + 1) == DirtyBelow(g, ids, k) + if g[k].marks.isDirty then multiset(ids)[k] else 0
    decreases |ids|
  {
    if ids != [] {
      DirtyBelowStep(g, ids[..|ids| - 1], k);
      assert ids == ids[..|ids| - 1] + [ids[|ids| - 1]];
    }
  }

  lemma {:induction false} DirtyBelowEnds(g: seq<Node>, ids: seq<nat>)
    requires forall j | 0 <= j < |ids| :: ids[j] < |g|
    ensures DirtyBelow(g, ids, 0) == 0 && DirtyBelow(g, ids, |g|) == DirtyAmong(g, ids)
    decreases |ids|
  {
    if ids != [] { DirtyBelowEnds(g, ids[..|ids| - 1]); }
  }

  /** The planner's count of dirty inputs is what the dirty nodes owe at the start, by the mirror. */
  lemma {:induction false} InitiallyOwed(g: seq<Node>, visited: seq<nat>, d: nat, k: nat)
    requires IdsInRange(g) && Mirrored(g) && ClosedSubgraph(g) && d < |g| && k <= |g|
    requires |visited| == |g| && forall m | 0 <= m < |g| :: visited[m] == 0
    ensures VisitedInRange(g, visited) && Owed(g, visited, d, k) == DirtyBelow(g, g[d].waitsOn, k)
    decreases k
  {
    hide Mirrored, ClosedSubgraph;
    assert VisitedInRange(g, visited);
    if k == 0 {
      DirtyBelowEnds(g, g[d].waitsOn);
    } else {
      InitiallyOwed(g, visited, d, k - 1);
      DirtyBelowStep(g, g[d].waitsOn, k - 1);
      MirroredDebt(g, k - 1, d);
    }
  }

  lemma MirroredDebt(g: seq<Node>, m: nat, d: nat)
    requires Mirrored(g) && ClosedSubgraph(g) && m < |g| && d < |g|
    ensures OwedBy(g, m, 0, d) == if g[m].marks.isDirty then multiset(g[d].waitsOn)[m] else 0
  {
    assert g[m].dependents[0..] == g[m].dependents;
  }

  lemma InitialPending(g: seq<Node>, capacity: nat, n: nat)
    requires Prepared(g) && 0 < capacity
    requires forall i | 0 <= i < |g| :: |g[i].waitsOn| < U32
    ensures PendingOk(g, Initial(g, capacity, n))
  {
    var s := Initial(g, capacity, n);
    assert VisitedInRange(g, s.notified);
    forall d: nat | d < |g| && Active(g, d)
      ensures s.pending[d] == Owed(g, s.notified, d, |g|) && s.pending[d] == g[d].marks.pendingDeps < U32
    {
      hide Owed, VisitedInRange, WellFormed, Mirrored, ClosedSubgraph;
      InitialDebt(g, s.notified, d);
    }
  }

  lemma InitialDebt(g: seq<Node>, visited: seq<nat>, d: nat)
    requires Prepared(g) && d < |g| && Active(g, d) && |g[d].waitsOn| < U32
    requires |visited| == |g| && forall m | 0 <= m < |g| :: visited[m] == 0
    ensures VisitedInRange(g, visited) && Owed(g, visited, d, |g|) == g[d].marks.pendingDeps < U32
  {
    hide *;
    PreparedGives(g, d);
    InitiallyOwed(g, visited, d, |g|);
    DirtyBelowEnds(g, g[d].waitsOn);
  }

  lemma PreparedGives(g: seq<Node>, d: nat)
    requires Prepared(g) && d < |g| && Active(g, d) && |g[d].waitsOn| < U32
    ensures IdsInRange(g) && Mirrored(g) && ClosedSubgraph(g)
    ensures forall j | 0 <= j < |g[d].waitsOn| :: g[d].waitsOn[j] < |g|
    ensures g[d].marks.pendingDeps == DirtyAmong(g, g[d].waitsOn) < U32
  {
    hide Mirrored, ClosedSubgraph, EdgesNamePaths;
  }
}
