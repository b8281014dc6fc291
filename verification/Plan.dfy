/** What a finished `zmm_bg_prepare` leaves in the planner marks, as a predicate on the node list. */
module Plans {
  import opened Basics
  import opened Graphs
  import opened GraphApi

  /** The node takes part in the coming run. */
  predicate Active(g: seq<Node>, i: nat)
    requires i < |g|
  {
    g[i].marks.inSubgraph && g[i].marks.isDirty
  }

  ghost function ActiveSet(g: seq<Node>): (s: set<nat>) {
    set i: nat | i < |g| && Active(g, i)
  }

  /** How many of the listed inputs are dirty, counted with multiplicity. */
  function DirtyAmong(g: seq<Node>, ids: seq<nat>): (c: nat)
    requires forall k | 0 <= k < |ids| :: ids[k] < |g|
    ensures c <= |ids|
    decreases |ids|
  {
    if ids == [] then 0
    else DirtyAmong(g, ids[..|ids| - 1]) + if g[ids[|ids| - 1]].marks.isDirty then 1 else 0
  }

  lemma NoneAmong(g: seq<Node>)
    ensures DirtyAmong(g, []) == 0
  {
  }

  lemma DirtyAmongStep(g: seq<Node>, ids: seq<nat>, j: nat)
    requires j < |ids| && forall k | 0 <= k < |ids| :: ids[k] < |g|
    ensures DirtyAmong(g, ids[..j + 1]) == DirtyAmong(g, ids[..j]) + if g[ids[j]].marks.isDirty then 1 else 0
    ensures (DirtyAmong(g, ids[..j]) % U32 + 1) % U32 == (DirtyAmong(g, ids[..j]) + 1) % U32
  {
    assert ids[..j + 1][..j] == ids[..j];
  }

  /** The subgraph is closed under `waitsOn` and every dirty node lies in it. */
  ghost predicate ClosedSubgraph(g: seq<Node>) {
    && (forall i: nat, m: nat | i < |g| && m < |g| && g[i].marks.inSubgraph && m in g[i].waitsOn ::
          g[m].marks.inSubgraph)
    && (forall i | 0 <= i < |g| && g[i].marks.isDirty :: g[i].marks.inSubgraph)
  }

  ghost predicate PendingCounted(g: seq<Node>)
    requires IdsInRange(g)
  {
    forall i | 0 <= i < |g| ::
      g[i].marks.pendingDeps == if Active(g, i) then DirtyAmong(g, g[i].waitsOn) % U32 else 0
  }

  /** A dirty input makes a node of the subgraph dirty. */
  ghost predicate UpwardClosed(g: seq<Node>) {
    forall i: nat, m: nat | i < |g| && m < |g| && g[i].marks.inSubgraph && m in g[i].waitsOn && g[m].marks.isDirty ::
      g[i].marks.isDirty
  }

  /** The node list that `zmm_bg_exec` starts from. */
  ghost predicate Prepared(g: seq<Node>) {
    WellFormed(g) && ClosedSubgraph(g) && PendingCounted(g)
  }

  ghost predicate SubgraphExact(g: seq<Node>, roots: set<nat>) {
    forall i: nat | i < |g| :: g[i].marks.inSubgraph <==> exists r <- roots :: Reach(g, r, i)
  }

  /** Every node marked dirty is dirty, on cyclic graphs too. */
  ghost predicate DirtySound(g: seq<Node>, fs: Times) {
    forall i: nat | i < |g| && g[i].marks.isDirty :: g[i].marks.inSubgraph && Dirty(g, fs, i)
  }

  /** The marks mean what they should: exact reachability, exact dirtiness. */
  ghost predicate MarksExact(g: seq<Node>, fs: Times, roots: set<nat>) {
    && SubgraphExact(g, roots)
    && (forall i: nat | i < |g| :: g[i].marks.isDirty <==> g[i].marks.inSubgraph && Dirty(g, fs, i))
  }

  lemma ExactIsUpwardClosed(g: seq<Node>, fs: Times, roots: set<nat>)
    requires MarksExact(g, fs, roots)
    ensures UpwardClosed(g)
  {
    forall i: nat, m: nat | i < |g| && m < |g| && g[i].marks.inSubgraph && m in g[i].waitsOn && g[m].marks.isDirty
      ensures g[i].marks.isDirty
    {
      DirtyUnfolds(g, fs, i);
    }
  }

  // ---- Marking what the targets reach ----

  ghost function InSubgraph(g: seq<Node>): (s: set<nat>) {
    set i: nat | i < |g| && g[i].marks.inSubgraph
  }

  ghost function OutOfSubgraph(g: seq<Node>): (s: set<nat>) {
    set i: nat | i < |g| && !g[i].marks.inSubgraph
  }

  ghost function Elements(s: seq<nat>): set<nat> {
    set x | x in s
  }

  function Admit(g: seq<Node>, i: nat): seq<Node>
    requires i < |g|
  {
    g[i := g[i].(marks := g[i].marks.(inSubgraph := true))]
  }

  /** Only `inSubgraph` marks were set between the two node lists. */
  ghost predicate OnlyAdmitted(g: seq<Node>, h: seq<Node>) {
    |h| == |g| && forall i {:trigger g[i]} {:trigger h[i]} | 0 <= i < |g| ::
      h[i] == g[i].(marks := g[i].marks.(inSubgraph := h[i].marks.inSubgraph))
  }

  /** Every input of a marked node is marked or still to be visited. */
  ghost predicate FrontierIn(g: seq<Node>, marked: set<nat>, open: set<nat>) {
    forall i: nat, m: nat | i in marked && i < |g| && m in g[i].waitsOn :: m in marked || m in open
  }

  lemma FrontierGrows(g: seq<Node>, marked: set<nat>, open: set<nat>, more: set<nat>)
    requires FrontierIn(g, marked, open) && open <= more
    ensures FrontierIn(g, marked, more)
  {
  }

  lemma FrontierDrops(g: seq<Node>, marked: set<nat>, open: set<nat>, id: nat)
    requires FrontierIn(g, marked, open + {id}) && id in marked
    ensures FrontierIn(g, marked, open)
  {
  }

  lemma FrontierStep(g: seq<Node>, marked: set<nat>, open: set<nat>, id: nat, open': set<nat>)
    requires FrontierIn(g, marked, open) && id < |g|
    requires forall x | x in open && x != id :: x in open'
    requires forall m | m in g[id].waitsOn :: m in marked + {id} || m in open'
    ensures FrontierIn(g, marked + {id}, open')
  {
  }

  lemma ClosedContainsReached(g: seq<Node>, marked: set<nat>, a: nat, b: nat)
    requires FrontierIn(g, marked, {}) && a in marked && Reach(g, a, b)
    ensures b in marked
  {
    var k: nat :| ReachIn(g, a, b, k);
    ClosedReach(g, marked, a, b, k);
  }

  // ---- Evaluating dirtiness ----

  function SetEval(g: seq<Node>, i: nat, dirty: bool): seq<Node>
    requires i < |g|
  {
    g[i := g[i].(marks := g[i].marks.(evalVisited := true, isDirty := dirty))]
  }

  ghost function Unvisited(g: seq<Node>): (s: set<nat>) {
    set i: nat | i < |g| && !g[i].marks.evalVisited
  }

  /** Between the two node lists some unvisited nodes were evaluated; nothing else changed. */
  ghost predicate OnlyEvaluated(g: seq<Node>, h: seq<Node>) {
    |h| == |g| && forall i {:trigger g[i]} {:trigger h[i]} | 0 <= i < |g| ::
      && h[i] == g[i].(marks := g[i].marks.(evalVisited := h[i].marks.evalVisited, isDirty := h[i].marks.isDirty))
      && (g[i].marks.evalVisited ==> h[i] == g[i])
  }

  /** The memo table `h` never claims too much. */
  ghost predicate Sound(g: seq<Node>, fs: Times, h: seq<Node>) {
    forall i: nat | i < |h| && h[i].marks.isDirty :: h[i].marks.evalVisited && Dirty(g, fs, i)
  }

  ghost predicate Right(g: seq<Node>, fs: Times, h: seq<Node>, i: nat)
    requires i < |h|
  {
    h[i].marks.isDirty <==> Dirty(g, fs, i)
  }

  /** What is memoised below `id` is correct. */
  ghost predicate RightBelow(g: seq<Node>, fs: Times, h: seq<Node>, id: nat) {
    forall i: nat | i < |h| && h[i].marks.evalVisited && Reach(g, id, i) :: Right(g, fs, h, i)
  }

  /** What was evaluated between the two node lists is correct. */
  ghost predicate RightSince(g: seq<Node>, fs: Times, was: seq<Node>, h: seq<Node>)
    requires |was| == |h|
  {
    forall i: nat | i < |h| && h[i].marks.evalVisited && !was[i].marks.evalVisited :: Right(g, fs, h, i)
  }

  ghost predicate RightSinceBut(g: seq<Node>, fs: Times, was: seq<Node>, h: seq<Node>, id: nat)
    requires |was| == |h|
  {
    forall i: nat | i < |h| && i != id && h[i].marks.evalVisited && !was[i].marks.evalVisited :: Right(g, fs, h, i)
  }

  ghost predicate NewlyReached(g: seq<Node>, was: seq<Node>, h: seq<Node>, id: nat)
    requires |was| == |h|
  {
    forall i: nat | i < |h| && h[i].marks.evalVisited && !was[i].marks.evalVisited :: Reach(g, id, i)
  }

  /** The outcome of evaluating `id`: `was` and `h` are the node lists before and after. */
  ghost predicate Evaluated(g: seq<Node>, fs: Times, was: seq<Node>, h: seq<Node>, id: nat) {
    && SameStructure(g, h) && OnlyEvaluated(was, h)
    && id < |h| && h[id].marks.evalVisited
    && NewlyReached(g, was, h, id)
    && Sound(g, fs, h)
    && (Acyclic(g) && RightBelow(g, fs, was, id) ==> RightSince(g, fs, was, h))
  }

  lemma AlreadyEvaluated(g: seq<Node>, fs: Times, h: seq<Node>, id: nat)
    requires SameStructure(g, h) && id < |h| && h[id].marks.evalVisited && Sound(g, fs, h)
    ensures Evaluated(g, fs, h, h, id)
  {
  }

  /** The state of the loop over the inputs of `id`, after `i` of them. */
  ghost predicate EvalLoop(g: seq<Node>, fs: Times, was: seq<Node>, h: seq<Node>, id: nat, i: nat, dirty: bool) {
    && SameStructure(g, h) && OnlyEvaluated(was, h)
    && id < |h| && !was[id].marks.evalVisited && h[id].marks.evalVisited && !h[id].marks.isDirty
    && i <= |g[id].waitsOn|
    && NewlyReached(g, was, h, id)
    && Sound(g, fs, h)
    && (dirty ==> Dirty(g, fs, id))
    && (Acyclic(g) && RightBelow(g, fs, was, id) ==>
          && RightSinceBut(g, fs, was, h, id)
          && (dirty <==> g[id].decl.alwaysDirty || exists k | 0 <= k < i :: Dirty(g, fs, g[id].waitsOn[k])))
  }

  lemma EvalStarts(g: seq<Node>, fs: Times, was: seq<Node>, id: nat)
    requires SameStructure(g, was) && id < |was| && !was[id].marks.evalVisited && Sound(g, fs, was)
    ensures EvalLoop(g, fs, was, SetEval(was, id, false), id, 0, was[id].decl.alwaysDirty)
  {
    hide Dirty, Reach, Acyclic;
    DirtyUnfolds(g, fs, id);
    ReachSelf(g, id);
  }

  /** The recursive call for the next input meets its precondition and has fewer nodes to visit. */
  lemma EvalLoopInput(g: seq<Node>, fs: Times, was: seq<Node>, h: seq<Node>, id: nat, i: nat, dirty: bool)
    requires EvalLoop(g, fs, was, h, id, i, dirty) && i < |g[id].waitsOn| && IdsInRange(g)
    ensures |was| == |h| == |g| && h[id].waitsOn == g[id].waitsOn && g[id].waitsOn[i] < |h|
    ensures SameStructure(g, h) && Sound(g, fs, h)
    ensures Unvisited(h) < Unvisited(was)
  {
    hide Dirty, Reach, Acyclic;
    assert id in Unvisited(was) && id !in Unvisited(h);
  }

  lemma EvalLoopStep(g: seq<Node>, fs: Times, was: seq<Node>, mid: seq<Node>, h: seq<Node>, id: nat, i: nat,
                     dirty: bool, r: bool)
    requires EvalLoop(g, fs, was, mid, id, i, dirty) && i < |g[id].waitsOn|
    requires Evaluated(g, fs, mid, h, g[id].waitsOn[i]) && r == h[g[id].waitsOn[i]].marks.isDirty
    ensures EvalLoop(g, fs, was, h, id, i + 1, dirty || r) && |h| == |g|
  {
    hide Dirty, Reach, Acyclic;
    var m := g[id].waitsOn[i];
    EvalCompose(g, was, mid, h, id, m);
    DirtyUnfolds(g, fs, id);
    if Acyclic(g) && RightBelow(g, fs, was, id) {
      InputBelowIsRight(g, fs, was, mid, id, m);
      ReachSelf(g, m);
      assert Right(g, fs, h, m);
    }
  }

  lemma EvalEnds(g: seq<Node>, fs: Times, was: seq<Node>, h: seq<Node>, id: nat, i: nat, dirty: bool)
    requires EvalLoop(g, fs, was, h, id, i, dirty) && i == |g[id].waitsOn|
    ensures h[id].decl == g[id].decl
    ensures var d := dirty || (!g[id].decl.phony && OutOfDate(fs, g[id].decl));
            Evaluated(g, fs, was, SetEval(h, id, d), id)
  {
    hide Dirty, Reach, Acyclic, OutOfDate;
    DirtyUnfolds(g, fs, id);
    assert forall m | m in g[id].waitsOn :: exists k | 0 <= k < |g[id].waitsOn| :: g[id].waitsOn[k] == m;
  }

  /** Before an input `m` of `id` is evaluated, everything memoised below `m` is correct. */
  lemma InputBelowIsRight(g: seq<Node>, fs: Times, was: seq<Node>, h: seq<Node>, id: nat, m: nat)
    requires |was| == |h| == |g| && id < |g| && m in g[id].waitsOn
    requires Acyclic(g) && RightBelow(g, fs, was, id)
    requires OnlyEvaluated(was, h) && RightSinceBut(g, fs, was, h, id)
    ensures RightBelow(g, fs, h, m)
  {
    hide Dirty, Reach, Acyclic;
    forall i: nat | i < |h| && h[i].marks.evalVisited && Reach(g, m, i)
      ensures Right(g, fs, h, i)
    {
      NoWayBack(g, id, m);
      ReachVia(g, id, m, i);
    }
  }

  /** Evaluating an input `m` of `id` extends what was evaluated for `id` so far. */
  lemma EvalCompose(g: seq<Node>, was: seq<Node>, mid: seq<Node>, h: seq<Node>, id: nat, m: nat)
    requires |was| == |mid| == |h| == |g| && id < |g| && m in g[id].waitsOn
    requires OnlyEvaluated(was, mid) && OnlyEvaluated(mid, h)
    requires NewlyReached(g, was, mid, id) && NewlyReached(g, mid, h, m)
    ensures OnlyEvaluated(was, h) && NewlyReached(g, was, h, id)
  {
    hide Reach;
    forall i: nat | i < |h| && h[i].marks.evalVisited && !was[i].marks.evalVisited
      ensures Reach(g, id, i)
    {
      if !mid[i].marks.evalVisited { ReachVia(g, id, m, i); }
    }
  }

  // ---- Why a node is marked, on every graph ----

  /** A node that is stale itself is marked; one that is marked is stale itself or has a marked input. */
  ghost predicate Grounded(fs: Times, h: seq<Node>, i: nat)
    requires i < |h|
  {
    && (StaleItself(fs, h[i].decl) ==> h[i].marks.isDirty)
    && (h[i].marks.isDirty ==> StaleItself(fs, h[i].decl) || SomeInputDirty(h, i))
  }

  ghost predicate SomeInputDirty(h: seq<Node>, i: nat)
    requires i < |h|
  {
    exists m <- h[i].waitsOn :: m < |h| && h[m].marks.isDirty
  }

  /** So it is for what was evaluated between the two node lists, except perhaps for `but`. */
  ghost predicate GroundedSince(fs: Times, was: seq<Node>, h: seq<Node>, but: Option<nat>)
    requires |was| == |h|
  {
    forall i: nat | i < |h| && but != Some(i) && h[i].marks.evalVisited && !was[i].marks.evalVisited ::
      Grounded(fs, h, i)
  }

  /** In the loop over the inputs of `id`: `dirty` has its reasons. */
  ghost predicate GroundLoop(fs: Times, was: seq<Node>, h: seq<Node>, id: nat, dirty: bool) {
    && |was| == |h| && id < |h|
    && GroundedSince(fs, was, h, Some(id))
    && (h[id].decl.alwaysDirty ==> dirty)
    && (dirty ==> h[id].decl.alwaysDirty || SomeInputDirty(h, id))
  }

  /** Marks, once given, stay, and so do the reasons for them. */
  lemma GroundStays(fs: Times, was: seq<Node>, h: seq<Node>, i: nat)
    requires |was| == |h| && i < |h| && Grounded(fs, was, i)
    requires h[i].decl == was[i].decl && h[i].waitsOn == was[i].waitsOn && h[i].marks.isDirty == was[i].marks.isDirty
    requires forall m: nat | m < |h| && was[m].marks.isDirty :: h[m].marks.isDirty
    ensures Grounded(fs, h, i)
  {
    hide StaleItself;
    InputStaysDirty(was, h, i);
  }

  lemma InputStaysDirty(was: seq<Node>, h: seq<Node>, i: nat)
    requires |was| == |h| && i < |h| && h[i].waitsOn == was[i].waitsOn
    requires forall m: nat | m < |h| && was[m].marks.isDirty :: h[m].marks.isDirty
    ensures SomeInputDirty(was, i) ==> SomeInputDirty(h, i)
  {
  }

  lemma NothingNew(fs: Times, h: seq<Node>)
    ensures GroundedSince(fs, h, h, None)
  {
  }

  lemma GroundStarts(fs: Times, was: seq<Node>, id: nat)
    requires id < |was|
    ensures GroundLoop(fs, was, SetEval(was, id, false), id, was[id].decl.alwaysDirty)
  {
  }

  /** Between the two node lists an input `m` of `id` was evaluated. */
  lemma GroundStep(g: seq<Node>, fs: Times, was: seq<Node>, mid: seq<Node>, h: seq<Node>, id: nat, m: nat, dirty: bool)
    requires GroundLoop(fs, was, mid, id, dirty) && |h| == |mid| && m < |h| && m in h[id].waitsOn
    requires OnlyEvaluated(was, mid) && OnlyEvaluated(mid, h) && Sound(g, fs, mid) && mid[id].marks.evalVisited
    requires GroundedSince(fs, mid, h, None)
    ensures GroundLoop(fs, was, h, id, dirty || h[m].marks.isDirty)
  {
    hide Grounded, SomeInputDirty, Dirty;
    MarksGrow(g, fs, mid, h);
    InputStaysDirty(mid, h, id);
    forall i: nat | i < |h| && i != id && h[i].marks.evalVisited && !was[i].marks.evalVisited
      ensures Grounded(fs, h, i)
    {
      if mid[i].marks.evalVisited { GroundStays(fs, mid, h, i); }
    }
    DirtyInput(h, id, m);
  }

  lemma EvalGround(g: seq<Node>, fs: Times, was: seq<Node>, mid: seq<Node>, h: seq<Node>, id: nat, i: nat, dirty: bool)
    requires EvalLoop(g, fs, was, mid, id, i, dirty) && i < |g[id].waitsOn| && g[id].waitsOn[i] < |h|
    requires Evaluated(g, fs, mid, h, g[id].waitsOn[i]) && |h| == |mid|
    requires GroundLoop(fs, was, mid, id, dirty) && GroundedSince(fs, mid, h, None)
    ensures GroundLoop(fs, was, h, id, dirty || h[g[id].waitsOn[i]].marks.isDirty)
  {
    hide GroundLoop, GroundedSince, Dirty, Reach, Acyclic, RightBelow, RightSince, RightSinceBut, NewlyReached;
    GroundStep(g, fs, was, mid, h, id, g[id].waitsOn[i], dirty);
  }

  lemma EvalUnmarked(g: seq<Node>, fs: Times, was: seq<Node>, h: seq<Node>, id: nat, i: nat, dirty: bool)
    requires EvalLoop(g, fs, was, h, id, i, dirty)
    ensures id < |h| && !h[id].marks.isDirty
  {
  }

  lemma DirtyInput(h: seq<Node>, id: nat, m: nat)
    requires id < |h| && m < |h| && m in h[id].waitsOn
    ensures h[m].marks.isDirty ==> SomeInputDirty(h, id)
  {
  }

  lemma MarksGrow(g: seq<Node>, fs: Times, was: seq<Node>, h: seq<Node>)
    requires OnlyEvaluated(was, h) && Sound(g, fs, was)
    ensures forall m: nat | m < |h| && was[m].marks.isDirty :: h[m].marks.isDirty
  {
    hide Dirty;
  }

  lemma GroundEnds(fs: Times, was: seq<Node>, h: seq<Node>, id: nat, dirty: bool)
    requires GroundLoop(fs, was, h, id, dirty) && !h[id].marks.isDirty
    ensures var d := dirty || (!h[id].decl.phony && OutOfDate(fs, h[id].decl));
            GroundedSince(fs, was, SetEval(h, id, d), None)
  {
    hide OutOfDate, Grounded, SomeInputDirty;
    var d := dirty || (!h[id].decl.phony && OutOfDate(fs, h[id].decl));
    var k := SetEval(h, id, d);
    forall i: nat | i < |k| && k[i].marks.evalVisited && !was[i].marks.evalVisited
      ensures Grounded(fs, k, i)
    {
      InputStaysDirty(h, k, i);
      if i == id { GroundedHere(fs, k, id, SomeInputDirty(k, id)); } else { GroundStays(fs, h, k, i); }
    }
  }

  lemma GroundedHere(fs: Times, k: seq<Node>, id: nat, dirty: bool)
    requires id < |k| && (StaleItself(fs, k[id].decl) ==> k[id].marks.isDirty)
    requires k[id].marks.isDirty ==> StaleItself(fs, k[id].decl) || SomeInputDirty(k, id)
    ensures Grounded(fs, k, id)
  {
  }

  /** All marks of the subgraph. */
  ghost predicate MarksGrounded(h: seq<Node>, fs: Times) {
    forall i: nat | i < |h| && h[i].marks.inSubgraph :: Grounded(fs, h, i)
  }

  ghost predicate VisitedGrounded(fs: Times, h: seq<Node>) {
    forall i: nat | i < |h| && h[i].marks.evalVisited :: Grounded(fs, h, i)
  }

  lemma GroundPass(g: seq<Node>, fs: Times, mid: seq<Node>, h: seq<Node>)
    requires VisitedGrounded(fs, mid) && OnlyEvaluated(mid, h) && Sound(g, fs, mid) && GroundedSince(fs, mid, h, None)
    ensures VisitedGrounded(fs, h)
  {
    hide Grounded, Dirty;
    MarksGrow(g, fs, mid, h);
    forall i: nat | i < |h| && h[i].marks.evalVisited
      ensures Grounded(fs, h, i)
    {
      if mid[i].marks.evalVisited { GroundStays(fs, mid, h, i); }
    }
  }

  lemma GroundTurn(g: seq<Node>, fs: Times, mid: seq<Node>, h: seq<Node>, id: nat)
    requires VisitedGrounded(fs, mid) && Evaluated(g, fs, mid, h, id) && Sound(g, fs, mid)
    requires |mid| == |h| && GroundedSince(fs, mid, h, None)
    ensures VisitedGrounded(fs, h)
  {
    hide VisitedGrounded, GroundedSince, Dirty, Reach, Acyclic, RightBelow, RightSince, NewlyReached;
    GroundPass(g, fs, mid, h);
  }

  lemma CountingKeepsGround(fs: Times, g: seq<Node>, h: seq<Node>)
    requires IdsInRange(g) && OnlyCounted(g, h, |g|) && MarksGrounded(g, fs)
    ensures MarksGrounded(h, fs)
  {
    hide Grounded, IdsInRange;
    forall i: nat | i < |h| && h[i].marks.inSubgraph
      ensures Grounded(fs, h, i)
    {
      CountedSame(g, h, i);
      forall m: nat | m < |h| && g[m].marks.isDirty ensures h[m].marks.isDirty { CountedSame(g, h, m); }
      GroundStays(fs, g, h, i);
    }
  }

  lemma CountedSame(g: seq<Node>, h: seq<Node>, i: nat)
    requires IdsInRange(g) && OnlyCounted(g, h, |g|) && i < |g|
    ensures |h| == |g| && h[i].decl == g[i].decl && h[i].waitsOn == g[i].waitsOn
    ensures h[i].marks.isDirty == g[i].marks.isDirty && h[i].marks.inSubgraph == g[i].marks.inSubgraph
  {
  }

  // ---- The same in numbers ----

  /** Whatever the graph: a node of the subgraph with a missing output, a missing input or an input that is later in
      seconds, or in nanoseconds at the same second, takes part in the run, unless it is phony. */
  lemma StaleIsActive(g: seq<Node>, fs: Times, i: nat, p: Path)
    requires MarksGrounded(g, fs) && i < |g| && g[i].marks.inSubgraph && !g[i].decl.phony
    requires p in g[i].decl.sources + g[i].decl.deps || g[i].decl.output !in fs
    requires
      var out := g[i].decl.output;
      out in fs && p in fs ==> fs[p].sec > fs[out].sec || (fs[p].sec == fs[out].sec && fs[p].nsec > fs[out].nsec)
    ensures i in ActiveSet(g)
  {
    hide OutOfDate;
    StaleInNumbers(fs, g[i].decl);
  }

  /** Where no input is marked, only the node's own flag and its own files count. */
  lemma ActiveIff(g: seq<Node>, fs: Times, i: nat)
    requires MarksGrounded(g, fs) && i < |g| && g[i].marks.inSubgraph
    requires forall m | m in g[i].waitsOn && m < |g| :: !g[m].marks.isDirty
    ensures var d := g[i].decl;
            i in ActiveSet(g) <==>
              || d.alwaysDirty
              || (!d.phony && (
                    || d.output == "" || d.output !in fs
                    || exists p | p in d.sources + d.deps ::
                         || p == "" || p !in fs || fs[p].sec > fs[d.output].sec
                         || (fs[p].sec == fs[d.output].sec && fs[p].nsec > fs[d.output].nsec)))
  {
    hide OutOfDate;
    StaleInNumbers(fs, g[i].decl);
  }

  /** What the file checks come to, in numbers. */
  lemma StaleInNumbers(fs: Times, d: Decl)
    ensures OutOfDate(fs, d) <==>
              || d.output == "" || d.output !in fs
              || exists p | p in d.sources + d.deps ::
                   || p == "" || p !in fs || fs[p].sec > fs[d.output].sec
                   || (fs[p].sec == fs[d.output].sec && fs[p].nsec > fs[d.output].nsec)
  {
    forall p | p in d.sources + d.deps ensures (exists k | 0 <= k < |d.sources| :: d.sources[k] == p)
                                            || (exists k | 0 <= k < |d.deps| :: d.deps[k] == p) {
      var k :| 0 <= k < |d.sources + d.deps| && (d.sources + d.deps)[k] == p;
      if k < |d.sources| { assert d.sources[k] == p; } else { assert d.deps[k - |d.sources|] == p; }
    }
    assert forall k | 0 <= k < |d.sources| :: d.sources[k] in d.sources + d.deps;
    assert forall k | 0 <= k < |d.deps| :: d.deps[k] in d.sources + d.deps;
  }

  // ---- The loops of zmm_bg_prepare ----

  ghost predicate Cleared(g: seq<Node>, n: nat) {
    forall i: nat | i < n && i < |g| :: g[i].marks == NoMarks
  }

  ghost function Roots(index: map<Path, nat>, targets: seq<Path>): (s: set<nat>) {
    set t | t in targets && t in index :: index[t]
  }

  ghost predicate MarkedFrom(g: seq<Node>, marked: set<nat>, roots: set<nat>) {
    forall i: nat :: i in marked <==> i < |g| && exists r <- roots :: Reach(g, r, i)
  }

  lemma NothingMarked(g: seq<Node>)
    requires Cleared(g, |g|)
    ensures InSubgraph(g) == {}
    ensures MarkedFrom(g, {}, {}) && FrontierIn(g, {}, {})
  {
  }

  lemma AdmittedStructure(g: seq<Node>, h: seq<Node>, marked: set<nat>)
    requires OnlyAdmitted(g, h)
    ensures SameStructure(g, h)
    ensures IdsInRange(g) ==> IdsInRange(h)
    ensures FrontierIn(g, marked, {}) ==> FrontierIn(h, marked, {})
  {
  }

  /** Planning one more target. */
  lemma AdmittedAgain(g: seq<Node>, mid: seq<Node>, h: seq<Node>, start: nat,
                      was: set<nat>, now: set<nat>, roots: set<nat>)
    requires OnlyAdmitted(g, mid) && OnlyAdmitted(mid, h)
    requires MarkedFrom(g, was, roots)
    requires forall i: nat :: i in now <==> i in was || (i < |mid| && Reach(mid, start, i))
    requires FrontierIn(mid, now, {})
    ensures OnlyAdmitted(g, h)
    ensures MarkedFrom(g, now, roots + {start})
    ensures FrontierIn(g, now, {})
  {
    hide Reach;
    forall i: nat ensures i in now <==> i < |g| && exists r <- roots + {start} :: Reach(g, r, i) {
      StructureKeepsReach(g, mid, start, i);
    }
    assert forall i | 0 <= i < |g| :: mid[i].waitsOn == g[i].waitsOn;
  }

  /** The state of the evaluation loop after `i` nodes. */
  ghost predicate EvalPass(g: seq<Node>, fs: Times, h: seq<Node>, i: nat) {
    && SameStructure(g, h) && OnlyEvaluated(g, h)
    && Sound(g, fs, h)
    && (forall j: nat | j < |h| && h[j].marks.evalVisited :: g[j].marks.inSubgraph)
    && (forall j: nat | j < i && j < |h| && g[j].marks.inSubgraph :: h[j].marks.evalVisited)
    && (Acyclic(g) ==> forall j: nat | j < |h| && h[j].marks.evalVisited :: Right(g, fs, h, j))
  }

  lemma EvalPassStep(g: seq<Node>, fs: Times, mid: seq<Node>, h: seq<Node>, i: nat)
    requires EvalPass(g, fs, mid, i) && i < |mid| && mid[i].marks.inSubgraph
    requires FrontierIn(g, InSubgraph(g), {})
    requires Evaluated(g, fs, mid, h, i)
    ensures EvalPass(g, fs, h, i + 1) && |h| == |g|
  {
    hide Dirty, Reach, Acyclic;
    forall j: nat | j < |h| && h[j].marks.evalVisited
      ensures g[j].marks.inSubgraph
    {
      if !mid[j].marks.evalVisited {
        ClosedContainsReached(g, InSubgraph(g), i, j);
      }
    }
  }

  ghost predicate OnlyCounted(g: seq<Node>, h: seq<Node>, n: nat)
    requires IdsInRange(g)
  {
    && |h| == |g|
    && forall i | 0 <= i < |g| ::
      h[i] == g[i].(marks := g[i].marks.(pendingDeps :=
        if i < n && Active(g, i) then DirtyAmong(g, g[i].waitsOn) % U32 else g[i].marks.pendingDeps))
  }

  lemma CountedAgrees(g: seq<Node>, h: seq<Node>, n: nat, i: nat)
    requires IdsInRange(g) && OnlyCounted(g, h, n) && i < |g|
    ensures |h| == |g| && h[i].waitsOn == g[i].waitsOn && h[i].marks.isDirty == g[i].marks.isDirty
  {
  }

  ghost function ActiveBelow(g: seq<Node>, n: nat): (s: set<nat>) {
    set i: nat | i < |g| && i < n && Active(g, i)
  }

  lemma ActiveBelowStep(g: seq<Node>, i: nat)
    requires i < |g|
    ensures |ActiveBelow(g, i + 1)| == |ActiveBelow(g, i)| + if Active(g, i) then 1 else 0
  {
    assert ActiveBelow(g, i + 1) == ActiveBelow(g, i) + if Active(g, i) then {i} else {};
  }

  // ---- From one loop of zmm_bg_prepare to the next ----

  lemma StructureIsTransitive(a: seq<Node>, b: seq<Node>, c: seq<Node>)
    requires SameStructure(a, b) && SameStructure(b, c)
    ensures SameStructure(a, c)
  {
  }

  lemma StructureKeepsValid(g: seq<Node>, h: seq<Node>, index: map<Path, nat>)
    requires SameStructure(g, h) && Graph(g, index).Valid()
    ensures Graph(h, index).Valid() && IdsInRange(h)
  {
    hide WellFormed;
    StructureKeepsWellFormed(g, h);
    StructureKeepsIndex(g, h, index);
    WellFormedIds(h);
  }

  lemma StructureKeepsIndex(g: seq<Node>, h: seq<Node>, index: map<Path, nat>)
    requires SameStructure(g, h) && Graph(g, index).Indexed()
    ensures Graph(h, index).Indexed()
  {
  }

  predicate Unevaluated(g: seq<Node>) {
    forall j | 0 <= j < |g| :: !g[j].marks.evalVisited && !g[j].marks.isDirty && g[j].marks.pendingDeps == 0
  }

  lemma MarkingLeaves(start: seq<Node>, reset: seq<Node>, marked: seq<Node>, index: map<Path, nat>)
    requires Graph(start, index).Valid() && SameStructure(start, reset)
    requires Cleared(reset, |reset|) && OnlyAdmitted(reset, marked)
    ensures SameStructure(start, marked) && Graph(marked, index).Valid() && IdsInRange(marked)
    ensures Unevaluated(marked)
    ensures FrontierIn(reset, InSubgraph(marked), {}) ==> FrontierIn(marked, InSubgraph(marked), {})
  {
    hide WellFormed, IdsInRange, FrontierIn, GraphApi.Graph.Indexed;
    AdmittedStructure(reset, marked, InSubgraph(marked));
    StructureIsTransitive(start, reset, marked);
    StructureKeepsValid(start, marked, index);
  }

  lemma EvaluationLeaves(start: seq<Node>, marked: seq<Node>, evaluated: seq<Node>, index: map<Path, nat>)
    requires SameStructure(start, marked) && Graph(start, index).Valid()
    requires OnlyEvaluated(marked, evaluated) && Unevaluated(marked)
    ensures SameStructure(start, evaluated) && IdsInRange(evaluated)
    ensures forall j | 0 <= j < |evaluated| :: evaluated[j].marks.pendingDeps == 0
  {
    hide GraphApi.Graph.Indexed, Mirrored, EdgesNamePaths;
  }

  lemma {:induction false} SameDirtyAmong(g: seq<Node>, h: seq<Node>, ids: seq<nat>)
    requires |g| == |h| && forall k | 0 <= k < |ids| :: ids[k] < |g|
    requires forall i | 0 <= i < |g| :: g[i].marks.isDirty == h[i].marks.isDirty
    ensures DirtyAmong(g, ids) == DirtyAmong(h, ids)
    decreases |ids|
  {
    if ids != [] { SameDirtyAmong(g, h, ids[..|ids| - 1]); }
  }

  lemma CountingLeaves(start: seq<Node>, evaluated: seq<Node>, h: seq<Node>, index: map<Path, nat>)
    requires Graph(start, index).Valid() && SameStructure(start, evaluated) && IdsInRange(evaluated)
    requires OnlyCounted(evaluated, h, |evaluated|)
    requires forall j | 0 <= j < |evaluated| :: evaluated[j].marks.pendingDeps == 0
    ensures SameStructure(start, h) && Graph(h, index).Valid() && WellFormed(h) && IdsInRange(h)
    ensures PendingCounted(h) && ActiveSet(h) == ActiveSet(evaluated)
  {
    hide WellFormed, GraphApi.Graph.Indexed;
    StructureKeepsValid(start, h, index);
    forall i | 0 <= i < |h|
      ensures h[i].marks.pendingDeps == if Active(h, i) then DirtyAmong(h, h[i].waitsOn) % U32 else 0
    {
      SameDirtyAmong(evaluated, h, h[i].waitsOn);
    }
  }

  lemma ReachedIsClosed(g: seq<Node>, roots: set<nat>)
    requires SubgraphExact(g, roots) && IdsInRange(g) && DirtyInSubgraph(g)
    ensures ClosedSubgraph(g)
  {
    forall i: nat, m: nat | i < |g| && m < |g| && g[i].marks.inSubgraph && m in g[i].waitsOn
      ensures g[m].marks.inSubgraph
    {
      var r :| r in roots && Reach(g, r, i);
      ReachSelf(g, m);
      ReachVia(g, i, m, m);
      ReachTrans(g, r, i, m);
    }
  }

  ghost predicate DirtyInSubgraph(g: seq<Node>) {
    forall i | 0 <= i < |g| && g[i].marks.isDirty :: g[i].marks.inSubgraph
  }

  lemma MarksEnd(reset: seq<Node>, marked: seq<Node>, evaluated: seq<Node>, h: seq<Node>, fs: Times, roots: set<nat>)
    requires OnlyAdmitted(reset, marked) && OnlyEvaluated(marked, evaluated) && SameStructure(marked, evaluated)
    requires IdsInRange(evaluated) && OnlyCounted(evaluated, h, |evaluated|) && IdsInRange(h)
    requires MarkedFrom(reset, InSubgraph(marked), roots)
    requires forall j: nat | j < |evaluated| && evaluated[j].marks.isDirty ::
      evaluated[j].marks.inSubgraph && Dirty(marked, fs, j)
    requires Acyclic(marked) ==>
      forall j: nat | j < |evaluated| && evaluated[j].marks.inSubgraph :: Right(marked, fs, evaluated, j)
    ensures SubgraphExact(h, roots) && DirtySound(h, fs) && ClosedSubgraph(h)
    ensures Acyclic(h) ==> MarksExact(h, fs, roots)
  {
    hide Reach, Dirty, Acyclic, IdsInRange;
    var same := SameStructure(reset, h) && SameStructure(marked, h);
    assert same;
    forall i: nat | i < |h|
      ensures h[i].marks.inSubgraph <==> exists r <- roots :: Reach(h, r, i)
      ensures Dirty(marked, fs, i) <==> Dirty(h, fs, i)
    {
      assert i in InSubgraph(marked) <==> h[i].marks.inSubgraph;
      forall r | r in roots ensures Reach(reset, r, i) <==> Reach(h, r, i) {
        StructureKeepsReach(reset, h, r, i);
      }
      StructureKeepsDirty(marked, h, fs, i);
    }
    ReachedIsClosed(h, roots);
    if Acyclic(h) { StructureKeepsAcyclic(h, marked); }
  }
}
