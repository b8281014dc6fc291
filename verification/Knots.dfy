/** Cycles among the dirty nodes of a prepared graph: what a build can never finish. */
module Knots {
  import opened Graphs
  import opened Plans

  /** Dirty nodes each of which waits for one of them. */
  ghost predicate Knot(g: seq<Node>, c: set<nat>) {
    c != {} && forall d | d in c :: d < |g| && Active(g, d) && WaitsWithin(g, c, d)
  }

  ghost predicate WaitsWithin(g: seq<Node>, c: set<nat>, d: nat)
    requires d < |g|
  {
    exists m :: m in c && m in g[d].waitsOn
  }

  lemma KnotInput(g: seq<Node>, c: set<nat>, d: nat) returns (m: nat)
    requires Knot(g, c) && d in c
    ensures d < |g| && Active(g, d) && m in c && m in g[d].waitsOn && m < |g| && Active(g, m)
  {
    hide WaitsWithin;
    assert WaitsWithin(g, c, d);
    m := InputWithin(g, c, d);
  }

  lemma InputWithin(g: seq<Node>, c: set<nat>, d: nat) returns (m: nat)
    requires d < |g| && WaitsWithin(g, c, d)
    ensures m in c && m in g[d].waitsOn
  {
    m :| m in c && m in g[d].waitsOn;
  }

  ghost predicate Untangled(g: seq<Node>) {
    forall c: set<nat> :: !Knot(g, c)
  }

  lemma AcyclicIsUntangled(g: seq<Node>)
    requires Acyclic(g)
    ensures Untangled(g)
  {
    hide WaitsWithin;
    var rank :| Ranked(g, rank);
    forall c: set<nat>
      ensures !Knot(g, c)
    {
      if Knot(g, c) {
        var d :| d in c;
        NoDescent(g, rank, c, d);
      }
    }
  }

  lemma {:induction false} NoDescent(g: seq<Node>, rank: seq<nat>, c: set<nat>, d: nat)
    requires Knot(g, c) && d in c && d < |g| && Ranked(g, rank)
    ensures false
    decreases rank[d]
  {
    hide Knot;
    var m := KnotInput(g, c, d);
    NoDescent(g, rank, c, m);
  }

  // ---- A knot is a cycle through a dirty node ----

  /** Above a dirty node everything in the subgraph is dirty. */
  lemma {:induction false} ReachStaysActive(g: seq<Node>, x: nat, m: nat, k: nat)
    requires UpwardClosed(g) && ClosedSubgraph(g) && ReachIn(g, x, m, k) && m < |g| && Active(g, m)
    requires x < |g| && g[x].marks.inSubgraph
    ensures Active(g, x)
    decreases k
  {
    if k > 0 {
      var y :| y in g[x].waitsOn && ReachIn(g, y, m, k - 1);
      ReachStaysActive(g, y, m, k - 1);
    }
  }

  /** The node is reached from one of its own inputs. */
  ghost predicate OnCycle(g: seq<Node>, d: nat) {
    d < |g| && exists m :: m in g[d].waitsOn && Reach(g, m, d)
  }

  /** The nodes of `c` that are reached from an input of `d`. */
  ghost function BelowIn(g: seq<Node>, c: set<nat>, d: nat): (r: set<nat>)
    requires d < |g|
  {
    set x | x in c && exists m :: m in g[d].waitsOn && Reach(g, m, x)
  }

  /** Descending inside a knot shrinks what is below, or has come round. */
  lemma {:induction false} KnotHasCycle(g: seq<Node>, c: set<nat>, d: nat) returns (e: nat)
    requires Knot(g, c) && d in c && d < |g|
    ensures e in c && OnCycle(g, e)
    decreases |BelowIn(g, c, d)|
  {
    hide Knot, OnCycle, BelowIn;
    var m := KnotInput(g, c, d);
    if OnCycle(g, m) {
      e := m;
    } else {
      BelowShrinks(g, c, d, m);
      SmallerSet(BelowIn(g, c, m), BelowIn(g, c, d));
      e := KnotHasCycle(g, c, m);
    }
  }

  lemma BelowShrinks(g: seq<Node>, c: set<nat>, d: nat, m: nat)
    requires d < |g| && m < |g| && m in c && m in g[d].waitsOn && !OnCycle(g, m)
    ensures BelowIn(g, c, m) < BelowIn(g, c, d)
  {
    forall x | x in BelowIn(g, c, m)
      ensures x in BelowIn(g, c, d)
    {
      var y :| y in g[m].waitsOn && Reach(g, y, x);
      ReachVia(g, m, y, x);
    }
    ReachSelf(g, m);
    assert m in BelowIn(g, c, d) && m !in BelowIn(g, c, m);
  }

  lemma {:induction false} SmallerSet(a: set<nat>, b: set<nat>)
    requires a < b
    ensures |a| < |b|
  {
    var rest := b - a;
    assert b == a + rest && rest != {};
  }

  // ---- Acyclic graphs ----

  ghost function Below(g: seq<Node>, d: nat): (r: set<nat>) {
    set x: nat | x < |g| && Reach(g, d, x)
  }

  lemma BelowFalls(g: seq<Node>, d: nat, m: nat)
    requires d < |g| && m in g[d].waitsOn && !OnCycle(g, d)
    ensures |Below(g, m)| < |Below(g, d)|
  {
    hide Reach;
    forall x | x in Below(g, m)
      ensures x in Below(g, d)
    {
      ReachVia(g, d, m, x);
    }
    ReachSelf(g, d);
    assert d in Below(g, d) && d !in Below(g, m);
    SmallerSet(Below(g, m), Below(g, d));
  }

  /** A graph is acyclic, in the sense of the planner's theorems, exactly if no node is reached from one of its own
      inputs. */
  lemma AcyclicIff(g: seq<Node>)
    ensures Acyclic(g) <==> forall d: nat, m: nat | d < |g| && m in g[d].waitsOn :: !Reach(g, m, d)
  {
    if Acyclic(g) {
      forall d: nat, m: nat | d < |g| && m in g[d].waitsOn ensures !Reach(g, m, d) { NoWayBack(g, d, m); }
    }
    if forall d: nat, m: nat | d < |g| && m in g[d].waitsOn :: !Reach(g, m, d) {
      var rank := seq(|g|, d requires 0 <= d < |g| => |Below(g, d)|);
      forall d: nat, m: nat | d < |g| && m in g[d].waitsOn && m < |g| ensures rank[m] < rank[d] {
        BelowFalls(g, d, m);
      }
      assert Ranked(g, rank);
    }
  }

  /** The nodes between an input and the node that is reached from it. */
  ghost function Between(g: seq<Node>, m: nat, d: nat): (r: set<nat>) {
    set x: nat | x < |g| && Reach(g, m, x) && Reach(g, x, d)
  }

  lemma {:induction false} ReachStaysInside(g: seq<Node>, a: nat, b: nat, k: nat)
    requires IdsInRange(g) && ClosedSubgraph(g) && ReachIn(g, a, b, k) && g[a].marks.inSubgraph
    ensures b < |g| && g[b].marks.inSubgraph
    decreases k
  {
    if k > 0 {
      var y :| y in g[a].waitsOn && ReachIn(g, y, b, k - 1);
      ReachStaysInside(g, y, b, k - 1);
    }
  }

  lemma BetweenIsActive(g: seq<Node>, d: nat, m: nat, x: nat)
    requires IdsInRange(g) && ClosedSubgraph(g) && UpwardClosed(g)
    requires d < |g| && Active(g, d) && m in g[d].waitsOn && x in Between(g, m, d)
    ensures Active(g, x)
  {
    var j: nat :| ReachIn(g, m, x, j);
    var k: nat :| ReachIn(g, x, d, k);
    ReachStaysInside(g, m, x, j);
    ReachStaysActive(g, x, d, k);
  }

  lemma CycleIsKnot(g: seq<Node>, d: nat, m: nat)
    requires IdsInRange(g) && ClosedSubgraph(g) && UpwardClosed(g)
    requires d < |g| && Active(g, d) && m in g[d].waitsOn && Reach(g, m, d)
    ensures Knot(g, Between(g, m, d))
  {
    hide UpwardClosed, ClosedSubgraph, Reach, WaitsWithin;
    ReachSelf(g, d);
    var c := Between(g, m, d);
    assert d in c;
    forall x | x in c
      ensures Active(g, x) && WaitsWithin(g, c, x)
    {
      BetweenIsActive(g, d, m, x);
      BetweenWaits(g, d, m, x);
    }
  }

  lemma BetweenWaits(g: seq<Node>, d: nat, m: nat, x: nat)
    requires IdsInRange(g) && d < |g| && m in g[d].waitsOn && Reach(g, m, d) && x in Between(g, m, d)
    ensures WaitsWithin(g, Between(g, m, d), x)
  {
    hide Reach;
    var y := m;
    if x == d {
      ReachSelf(g, m);
    } else {
      y := ReachFirst(g, x, d);
      ReachSelf(g, y);
      ReachVia(g, x, y, y);
      ReachTrans(g, m, x, y);
    }
    assert y in Between(g, m, d);
  }

  /** Where a dirty input makes a node dirty, no knot means that no dirty node is reached from one of its own inputs. */
  lemma UntangledIff(g: seq<Node>)
    requires IdsInRange(g) && ClosedSubgraph(g) && UpwardClosed(g)
    ensures Untangled(g) <==> forall d: nat | d < |g| && Active(g, d) :: !OnCycle(g, d)
  {
    hide IdsInRange, ClosedSubgraph, UpwardClosed, WaitsWithin;
    if !Untangled(g) {
      var c :| Knot(g, c);
      var d :| d in c;
      var e := KnotHasCycle(g, c, d);
      assert Active(g, e);
    }
    forall d: nat | d < |g| && Active(g, d) && OnCycle(g, d)
      ensures !Untangled(g)
    {
      var m :| m in g[d].waitsOn && Reach(g, m, d);
      CycleIsKnot(g, d, m);
    }
  }
}
