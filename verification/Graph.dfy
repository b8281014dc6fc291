/** The dependency graph as a value: nodes, reachability over `waitsOn`, file times and
    what it means for a node to be out of date. */
module Graphs {
  import opened Basics

  type Path = string

  /** What a node was declared with: the strings and flags that the API calls store. */
  datatype Decl = Decl(
    output: Path,
    sources: seq<Path>,
    deps: seq<Path>,
    builder: Option<nat>,
    isTarget: bool,
    phony: bool,
    alwaysDirty: bool)

  /** What the planner writes into a node. */
  datatype Marks = Marks(inSubgraph: bool, evalVisited: bool, isDirty: bool, pendingDeps: nat)

  datatype Node = Node(decl: Decl, dependents: seq<nat>, waitsOn: seq<nat>, marks: Marks)

  const NoMarks := Marks(false, false, false, 0)

  /** The two graphs differ in planner marks only. */
  ghost predicate SameStructure(a: seq<Node>, b: seq<Node>) {
    |a| == |b| && forall i {:trigger a[i]} {:trigger b[i]} | 0 <= i < |a| ::
      a[i].decl == b[i].decl && a[i].dependents == b[i].dependents && a[i].waitsOn == b[i].waitsOn
  }

  // ---- Well-formedness ----

  function Outputs(g: seq<Node>, ids: seq<nat>): (s: seq<Path>)
    requires forall k | 0 <= k < |ids| :: ids[k] < |g|
  {
    seq(|ids|, k requires 0 <= k < |ids| => g[ids[k]].decl.output)
  }

  ghost predicate IdsInRange(g: seq<Node>) {
    && (forall i, k | 0 <= i < |g| && 0 <= k < |g[i].waitsOn| :: g[i].waitsOn[k] < |g|)
    && (forall i, k | 0 <= i < |g| && 0 <= k < |g[i].dependents| :: g[i].dependents[k] < |g|)
  }

  /** The two edge lists mirror each other, occurrence by occurrence. */
  ghost predicate Mirrored(g: seq<Node>) {
    forall d: nat, t: nat | d < |g| && t < |g| :: multiset(g[d].dependents)[t] == multiset(g[t].waitsOn)[d]
  }

  /** Each edge of a node comes from one listed source or dependency, and only targets have any. */
  ghost predicate EdgesNamePaths(g: seq<Node>)
    requires IdsInRange(g)
  {
    && (forall t {:trigger Outputs(g, g[t].waitsOn)} | 0 <= t < |g| ::
          multiset(Outputs(g, g[t].waitsOn)) == multiset(g[t].decl.sources + g[t].decl.deps))
    && (forall t | 0 <= t < |g| && !g[t].decl.isTarget :: g[t].waitsOn == [])
  }

  ghost predicate WellFormed(g: seq<Node>) {
    IdsInRange(g) && Mirrored(g) && EdgesNamePaths(g)
  }

  lemma WellFormedIds(g: seq<Node>)
    requires WellFormed(g)
    ensures IdsInRange(g)
  {
  }

  lemma StructureKeepsWellFormed(a: seq<Node>, b: seq<Node>)
    requires SameStructure(a, b) && WellFormed(a)
    ensures WellFormed(b)
  {
    assert forall i | 0 <= i < |a| :: a[i].waitsOn == b[i].waitsOn && a[i].dependents == b[i].dependents;
    forall t | 0 <= t < |b|
      ensures multiset(Outputs(b, b[t].waitsOn)) == multiset(b[t].decl.sources + b[t].decl.deps)
    {
      assert Outputs(a, a[t].waitsOn) == Outputs(b, b[t].waitsOn);
    }
  }

  // ---- Reachability ----

  /** `b` is reached from `a` by following `k` edges of `waitsOn`. */
  ghost predicate ReachIn(g: seq<Node>, a: nat, b: nat, k: nat)
    decreases k
  {
    && a < |g|
    && if k == 0 then a == b else exists m <- g[a].waitsOn :: ReachIn(g, m, b, k - 1)
  }

  ghost predicate Reach(g: seq<Node>, a: nat, b: nat) {
    exists k: nat :: ReachIn(g, a, b, k)
  }

  lemma ReachSelf(g: seq<Node>, a: nat)
    requires a < |g|
    ensures Reach(g, a, a)
  {
    assert ReachIn(g, a, a, 0);
  }

  lemma ReachVia(g: seq<Node>, a: nat, m: nat, b: nat)
    requires a < |g| && m in g[a].waitsOn && Reach(g, m, b)
    ensures Reach(g, a, b)
  {
    var k: nat :| ReachIn(g, m, b, k);
    assert ReachIn(g, a, b, k + 1);
  }

  lemma {:induction false} ReachInTrans(g: seq<Node>, a: nat, b: nat, c: nat, j: nat, k: nat)
    requires ReachIn(g, a, b, j) && ReachIn(g, b, c, k)
    ensures ReachIn(g, a, c, j + k)
    decreases j
  {
    if j > 0 {
      var m :| m in g[a].waitsOn && ReachIn(g, m, b, j - 1);
      ReachInTrans(g, m, b, c, j - 1, k);
    }
  }

  lemma ReachTrans(g: seq<Node>, a: nat, b: nat, c: nat)
    requires Reach(g, a, b) && Reach(g, b, c)
    ensures Reach(g, a, c)
  {
    var j: nat :| ReachIn(g, a, b, j);
    var k: nat :| ReachIn(g, b, c, k);
    ReachInTrans(g, a, b, c, j, k);
  }

  lemma ReachFirst(g: seq<Node>, a: nat, b: nat) returns (m: nat)
    requires Reach(g, a, b) && a != b
    ensures a < |g| && m in g[a].waitsOn && Reach(g, m, b)
  {
    var k: nat :| ReachIn(g, a, b, k);
    m :| m in g[a].waitsOn && ReachIn(g, m, b, k - 1);
  }

  /** A set of nodes closed under `waitsOn` contains what its members reach. */
  lemma {:induction false} ClosedReach(g: seq<Node>, s: set<nat>, a: nat, b: nat, k: nat)
    requires forall i: nat, m | i in s && i < |g| && m in g[i].waitsOn :: m in s
    requires a in s && ReachIn(g, a, b, k)
    ensures b in s
    decreases k
  {
    if k > 0 {
      var m :| m in g[a].waitsOn && ReachIn(g, m, b, k - 1);
      ClosedReach(g, s, m, b, k - 1);
    }
  }

  lemma {:induction false} StructureKeepsReachIn(g: seq<Node>, h: seq<Node>, a: nat, b: nat, k: nat)
    requires SameStructure(g, h) && ReachIn(g, a, b, k)
    ensures ReachIn(h, a, b, k)
    decreases k
  {
    assert g[a].waitsOn == h[a].waitsOn;
    if k > 0 {
      var m :| m in g[a].waitsOn && ReachIn(g, m, b, k - 1);
      StructureKeepsReachIn(g, h, m, b, k - 1);
    }
  }

  lemma StructureKeepsReach(g: seq<Node>, h: seq<Node>, a: nat, b: nat)
    requires SameStructure(g, h)
    ensures Reach(g, a, b) <==> Reach(h, a, b)
  {
    if Reach(g, a, b) {
      var k: nat :| ReachIn(g, a, b, k);
      StructureKeepsReachIn(g, h, a, b, k);
    }
    if Reach(h, a, b) {
      var k: nat :| ReachIn(h, a, b, k);
      StructureKeepsReachIn(h, g, a, b, k);
    }
  }

  // ---- Acyclicity ----

  ghost predicate Ranked(g: seq<Node>, rank: seq<nat>) {
    && |rank| == |g|
    && forall i, m: nat | 0 <= i < |g| && m in g[i].waitsOn && m < |g| :: rank[m] < rank[i]
  }

  ghost predicate Acyclic(g: seq<Node>) {
    exists rank :: Ranked(g, rank)
  }

  lemma {:induction false} RankFalls(g: seq<Node>, rank: seq<nat>, a: nat, b: nat, k: nat)
    requires Ranked(g, rank) && ReachIn(g, a, b, k)
    ensures b < |g| && rank[b] + k <= rank[a]
    decreases k
  {
    if k > 0 {
      var m :| m in g[a].waitsOn && ReachIn(g, m, b, k - 1);
      RankFalls(g, rank, m, b, k - 1);
    }
  }

  /** In an acyclic graph no node is reached from one of its own inputs. */
  lemma NoWayBack(g: seq<Node>, a: nat, m: nat)
    requires Acyclic(g) && a < |g| && m in g[a].waitsOn
    ensures !Reach(g, m, a)
  {
    if Reach(g, m, a) {
      var rank :| Ranked(g, rank);
      var k: nat :| ReachIn(g, m, a, k);
      assert ReachIn(g, a, a, k + 1);
      RankFalls(g, rank, a, a, k + 1);
    }
  }

  lemma StructureKeepsAcyclic(a: seq<Node>, b: seq<Node>)
    requires SameStructure(a, b) && Acyclic(a)
    ensures Acyclic(b)
  {
    var rank :| Ranked(a, rank);
    assert forall i | 0 <= i < |a| :: a[i].waitsOn == b[i].waitsOn;
    assert Ranked(b, rank);
  }

  // ---- File times ----

  /** A modification time, as `stat` reports it. */
  datatype Time = Time(sec: int, nsec: int)

  /** `is_dirty_stat`: the second time is later than the first. */
  predicate Newer(a: Time, b: Time) {
    b.sec > a.sec || (a.sec == b.sec && b.nsec > a.nsec)
  }

  /** The modification times of the files that exist. */
  type Times = map<Path, Time>

  /** `stat_strview`: the empty path has no file. */
  function Stat(fs: Times, p: Path): Option<Time> {
    if p != "" && p in fs then Some(fs[p]) else None
  }

  /** One input makes an output of age `out` out of date: it is missing or newer. */
  predicate InputStale(fs: Times, out: Time, p: Path) {
    Stat(fs, p).None? || Newer(out, Stat(fs, p).value)
  }

  predicate OutOfDate(fs: Times, n: Decl) {
    match Stat(fs, n.output)
    case None => true
    case Some(out) =>
      || (exists k | 0 <= k < |n.sources| :: InputStale(fs, out, n.sources[k]))
      || (exists k | 0 <= k < |n.deps| :: InputStale(fs, out, n.deps[k]))
  }

  /** The node is dirty on its own account, whatever its inputs are. */
  predicate StaleItself(fs: Times, n: Decl) {
    n.alwaysDirty || (!n.phony && OutOfDate(fs, n))
  }

  /** The meaning of dirtiness: the node depends, directly or not, on a node that is stale itself. */
  ghost predicate Dirty(g: seq<Node>, fs: Times, d: nat) {
    exists r: nat :: r < |g| && Reach(g, d, r) && StaleItself(fs, g[r].decl)
  }

  /** Dirtiness satisfies the recursive reading of the rule, on every graph. */
  lemma DirtyUnfolds(g: seq<Node>, fs: Times, d: nat)
    requires d < |g|
    ensures Dirty(g, fs, d) <==> (StaleItself(fs, g[d].decl) || exists m <- g[d].waitsOn :: Dirty(g, fs, m))
  {
    ReachSelf(g, d);
    if Dirty(g, fs, d) && !StaleItself(fs, g[d].decl) {
      var r: nat :| r < |g| && Reach(g, d, r) && StaleItself(fs, g[r].decl);
      var m := ReachFirst(g, d, r);
      assert Dirty(g, fs, m);
    }
    forall m | m in g[d].waitsOn && Dirty(g, fs, m)
      ensures Dirty(g, fs, d)
    {
      var r: nat :| r < |g| && Reach(g, m, r) && StaleItself(fs, g[r].decl);
      ReachVia(g, d, m, r);
    }
  }

  /** Conversely, on an acyclic graph any predicate that satisfies the recursive reading is `Dirty`. */
  lemma {:induction false} DirtyIsTheOnlySolution(g: seq<Node>, fs: Times, rank: seq<nat>, f: nat -> bool, d: nat)
    requires IdsInRange(g) && Ranked(g, rank) && d < |g|
    requires forall i: nat | i < |g| :: f(i) <==> (StaleItself(fs, g[i].decl) || exists m <- g[i].waitsOn :: f(m))
    ensures f(d) <==> Dirty(g, fs, d)
    decreases rank[d]
  {
    DirtyUnfolds(g, fs, d);
    forall m | m in g[d].waitsOn
      ensures f(m) <==> Dirty(g, fs, m)
    {
      DirtyIsTheOnlySolution(g, fs, rank, f, m);
    }
  }

  lemma StructureKeepsDirty(g: seq<Node>, h: seq<Node>, fs: Times, d: nat)
    requires SameStructure(g, h) && d < |g|
    ensures Dirty(g, fs, d) <==> Dirty(h, fs, d)
  {
    forall r: nat | r < |g|
      ensures Reach(g, d, r) <==> Reach(h, d, r)
      ensures StaleItself(fs, g[r].decl) <==> StaleItself(fs, h[r].decl)
    {
      StructureKeepsReach(g, h, d, r);
      assert g[r].decl == h[r].decl;
    }
  }
}
