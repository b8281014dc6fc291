/** Whole-build theorems: an incremental build leaves what a rebuild from scratch would leave, and a
    second build finds nothing to do. */
module Rebuild {
  import opened Basics
  import opened Graphs
  import opened GraphApi
  import opened Plans
  import opened Schedulers
  import opened Ownership
  import opened Counting
  import opened CoreInvariant
  import opened Steps
  import opened WaitingInvariant
  import opened RunTheorems
  import opened OrderTheorems
  import opened Knots
  import TerminationTheorems
  import SeedRace
  import Finishing
  import opened Worlds

  /** The graph as `zmm_bg_prepare` leaves it, acyclic with the given ranks. */
  ghost predicate Setting(g: Graph, rank: seq<nat>) {
    && g.Valid() && Ranked(g.nodes, rank) && InputsRanked(g, rank)
    && Prepared(g.nodes) && UpwardClosed(g.nodes)
  }

  /** Nothing will write the output of `d` any more. */
  ghost predicate Settled(g: seq<Node>, s: State, d: nat)
    requires d < |g| == |s.phase|
  {
    !g[d].marks.isDirty || !Produces(g[d].decl) || Succeeded(g, s, d)
  }

  // ---- Who has succeeded, step by step ----

  lemma SucceededStep(g: seq<Node>, s: State, a: Action, m: nat)
    requires Inv(g, s) && Enabled(g, s, a) && Clean(g, s, a) && m < |g|
    ensures InRange(g, s) && |s.phase| == |Apply(g, s, a).phase| == |g|
    ensures Succeeded(g, Apply(g, s, a), m) ==>
      Succeeded(g, s, m) || (a.Succeed? && a.w < |s.workers| && s.workers[a.w] == Running(m))
  {
    hide Core, ErrorsOk, MainWaits, MainLeft, QueueServed, ShutdownOk, JoinedOk, Clean;
    CoreBasics(g, s);
    CoreIsPlaced(g, s, a);
    StepKeepsRange(g, s, a);
    DoneStep(g, s, a, m);
    hide Apply, Enabled, InRange, Inv, Placed;
    var t := Apply(g, s, a);
    if Succeeded(g, t, m) && !t.phase[m].Done? {
      var w: nat :| w < |t.workers| && (
         t.workers[w] == Finishing(m)
         || (t.workers[w].Notifying? && t.workers[w].node == m)
         || (t.workers[w].Pushing? && t.workers[w].node == m));
      SuccessKept(g, s, a, w, m);
    }
  }

  lemma DoneStep(g: seq<Node>, s: State, a: Action, m: nat)
    requires InRange(g, s) && Enabled(g, s, a) && Placed(g, s, a) && m < |g|
    ensures |s.phase| == |Apply(g, s, a).phase| == |g|
    ensures Apply(g, s, a).phase[m].Done? ==> Succeeded(g, s, m)
  {
    if Apply(g, s, a).phase[m].Done? && !s.phase[m].Done? { assert s.workers[a.w] == Finishing(m); }
  }

  predicate PastBuilder(p: Worker, m: nat) {
    p == Finishing(m) || (p.Notifying? && p.node == m) || (p.Pushing? && p.node == m)
  }

  lemma SuccessKept(g: seq<Node>, s: State, a: Action, w: nat, m: nat)
    requires InRange(g, s) && Enabled(g, s, a) && w < |s.workers|
    ensures w < |Apply(g, s, a).workers|
    ensures PastBuilder(Apply(g, s, a).workers[w], m) ==>
      PastBuilder(s.workers[w], m) || (a == Succeed(w) && s.workers[w] == Running(m))
  {
    if StepOf(a, w) {
      hide IdsInRange, RingInRange, MainInRange;
    } else {
      OthersLeave(g, s, a, w);
      hide Apply, Enabled, InRange, StepOf;
    }
  }

  /** A node whose builder runs is dirty, has started and has not succeeded. */
  lemma RunningNode(g: seq<Node>, s: State, v: nat)
    requires Inv(g, s) && v < |s.workers| && s.workers[v].Running?
    ensures InRange(g, s) && s.workers[v].node < |g|
    ensures var d := s.workers[v].node; Active(g, d) && s.phase[d] == Held(v) && !Succeeded(g, s, d)
  {
    hide QueueHolds, Hands, WaitingOk, PendingOk, VisitedOk, StartedOk, RemainingOk, ErrorsOk, MainWaits, MainLeft,
         QueueServed, ShutdownOk, JoinedOk;
    HeldBy(g, s, v);
    var d := s.workers[v].node;
    forall w: nat | w < |s.workers|
      ensures s.workers[w] != Finishing(d)
      ensures s.workers[w].Notifying? || s.workers[w].Pushing? ==> s.workers[w].node != d
    {
      assert V(g, s, w).node == Some(d) ==> w == v;
    }
  }

  /** The inputs of a running node lie in the subgraph and are settled. */
  lemma RunningInputsSettled(g: seq<Node>, s: State, v: nat, m: nat)
    requires Inv(g, s) && Prepared(g) && v < |s.workers| && s.workers[v].Running?
    requires s.workers[v].node < |g| && m < |g| && m in g[s.workers[v].node].waitsOn
    ensures |s.phase| == |g| && g[m].marks.inSubgraph && Settled(g, s, m)
  {
    RunningNode(g, s, v);
    hide QueueHolds, Hands, Holders, WaitingOk, PendingOk, VisitedOk, StartedOk, RemainingOk, ErrorsOk, MainWaits,
         MainLeft, QueueServed, ShutdownOk, JoinedOk, Mirrored, EdgesNamePaths, Succeeded, PendingCounted;
    var d := s.workers[v].node;
    assert g[m].marks.inSubgraph;
    if Active(g, m) { InputSucceeded(g, s, d, m); }
  }

  // ---- Contents ----

  /** Before the build, every target judged clean holds what its builder makes of its inputs as they are. */
  ghost predicate CleanTargetsBuilt(g: seq<Node>, f: Builders, fs: Files) {
    forall d | 0 <= d < |g| && g[d].marks.inSubgraph && !g[d].marks.isDirty && Produces(g[d].decl) ::
      ContentAt(fs, g[d].decl.output) == Some(Built(f, fs, g[d].decl))
  }

  /** Every settled node of the subgraph holds its from-scratch content. */
  ghost predicate HoldsFull(g: Graph, f: Builders, fs0: Files, rank: seq<nat>, s: State, fs: Files)
    requires InputsRanked(g, rank) && |s.phase| == |g.nodes|
  {
    forall d: nat | d < |g.nodes| && g.nodes[d].marks.inSubgraph && Settled(g.nodes, s, d) ::
      ContentAt(fs, g.nodes[d].decl.output) == Full(g, f, fs0, rank, d)
  }

  /** If the inputs of `d` hold their from-scratch contents, so does what the builder of `d` makes of them. */
  lemma BuiltIsFull(g: Graph, f: Builders, fs0: Files, rank: seq<nat>, fs: Files, d: nat)
    requires InputsRanked(g, rank) && d < |g.nodes| && Produces(g.nodes[d].decl)
    requires forall p | p in g.nodes[d].decl.sources + g.nodes[d].decl.deps ::
      p in g.index && ContentAt(fs, p) == Full(g, f, fs0, rank, g.index[p])
    ensures Some(Built(f, fs, g.nodes[d].decl)) == Full(g, f, fs0, rank, d)
  {
    var decl := g.nodes[d].decl;
    assert forall p | p in decl.sources :: p in decl.sources + decl.deps;
    assert forall p | p in decl.deps :: p in decl.sources + decl.deps;
    assert ContentsAt(fs, decl.sources) == FullAll(g, f, fs0, rank, decl.sources, rank[d]);
    assert ContentsAt(fs, decl.deps) == FullAll(g, f, fs0, rank, decl.deps, rank[d]);
  }

  lemma {:induction false} CleanHoldsFull(g: Graph, f: Builders, fs: Files, rank: seq<nat>, d: nat)
    requires Setting(g, rank) && CleanTargetsBuilt(g.nodes, f, fs)
    requires d < |g.nodes| && g.nodes[d].marks.inSubgraph && (!g.nodes[d].marks.isDirty || !Produces(g.nodes[d].decl))
    ensures ContentAt(fs, g.nodes[d].decl.output) == Full(g, f, fs, rank, d)
    decreases rank[d]
  {
    hide Graph.Indexed, Mirrored, EdgesNamePaths, PendingCounted, Built;
    if Produces(g.nodes[d].decl) {
      forall p | p in g.nodes[d].decl.sources + g.nodes[d].decl.deps
        ensures p in g.index && ContentAt(fs, p) == Full(g, f, fs, rank, g.index[p])
      {
        InputIsWaitedOn(g, d, p);
        CleanHoldsFull(g, f, fs, rank, g.index[p]);
      }
      BuiltIsFull(g, f, fs, rank, fs, d);
    }
  }

  /** A step touches at most the output of one producing node whose builder is running. */
  lemma StepWrites(g: seq<Node>, f: Builders, w: World, a: WorldAction, w': World, p: Path)
    requires WorldStep(g, f, w, a, w') && FileAt(w.fs, p) != FileAt(w'.fs, p)
    ensures var v := if a.Scribble? then a.w else if a.a.Succeed? || a.a.Fail? then a.a.w else 0;
            && v < |w.s.workers| && w.s.workers[v].Running? && w.s.workers[v].node < |g|
            && Produces(g[w.s.workers[v].node].decl) && g[w.s.workers[v].node].decl.output == p
            && (a.Sched? ==> (a.a.Succeed? || a.a.Fail?) && a.a.w == v)
  {
    hide Apply, InRange, Produces;
  }

  /** The output of a settled node does not change. */
  lemma SettledIsStable(g: Graph, f: Builders, w: World, a: WorldAction, w': World, d: nat)
    requires g.Valid() && Inv(g.nodes, w.s) && WorldStep(g.nodes, f, w, a, w')
    requires d < |g.nodes| && |w.s.phase| == |g.nodes| && Settled(g.nodes, w.s, d)
    ensures FileAt(w'.fs, g.nodes[d].decl.output) == FileAt(w.fs, g.nodes[d].decl.output)
  {
    hide Inv, WellFormed, WorldStep, Succeeded;
    var p := g.nodes[d].decl.output;
    if FileAt(w.fs, p) != FileAt(w'.fs, p) {
      StepWrites(g.nodes, f, w, a, w', p);
      var v := if a.Scribble? then a.w else if a.a.Succeed? || a.a.Fail? then a.a.w else 0;
      SameOutput(g, w.s.workers[v].node, d);
      RunningIsNotSettled(g.nodes, w.s, v);
    }
  }

  lemma SameOutput(g: Graph, i: nat, j: nat)
    requires g.Indexed() && i < |g.nodes| && j < |g.nodes| && g.nodes[i].decl.output == g.nodes[j].decl.output
    ensures i == j
  {
    assert g.index[g.nodes[i].decl.output] == i && g.index[g.nodes[j].decl.output] == j;
  }

  lemma RunningIsNotSettled(g: seq<Node>, s: State, v: nat)
    requires Inv(g, s) && v < |s.workers| && s.workers[v].Running?
    requires s.workers[v].node < |g| == |s.phase| && Produces(g[s.workers[v].node].decl)
    ensures !Settled(g, s, s.workers[v].node)
  {
    hide Inv, Succeeded;
    RunningNode(g, s, v);
  }

  /** What a builder that ends now has produced is the from-scratch content. */
  lemma SuccessIsFull(g: Graph, f: Builders, fs0: Files, rank: seq<nat>, s: State, fs: Files, v: nat)
    requires Setting(g, rank) && Inv(g.nodes, s) && |s.phase| == |g.nodes| && HoldsFull(g, f, fs0, rank, s, fs)
    requires v < |s.workers| && s.workers[v].Running? && s.workers[v].node < |g.nodes|
    requires Produces(g.nodes[s.workers[v].node].decl)
    ensures var d := s.workers[v].node; Some(Built(f, fs, g.nodes[d].decl)) == Full(g, f, fs0, rank, d)
  {
    hide Inv, Graph.Indexed, WellFormed, ClosedSubgraph, PendingCounted, UpwardClosed, Settled, Built, Ranked;
    var d := s.workers[v].node;
    forall p | p in g.nodes[d].decl.sources + g.nodes[d].decl.deps
      ensures p in g.index && ContentAt(fs, p) == Full(g, f, fs0, rank, g.index[p])
    {
      InputIsWaitedOn(g, d, p);
      RunningInputsSettled(g.nodes, s, v, g.index[p]);
    }
    BuiltIsFull(g, f, fs0, rank, fs, d);
  }

  ghost predicate CleanWorldStep(g: seq<Node>, w: World, a: WorldAction) {
    a.Sched? ==> Clean(g, w.s, a.a)
  }

  lemma WorldStepKeepsInv(g: seq<Node>, f: Builders, w: World, a: WorldAction, w': World)
    requires Inv(g, w.s) && WorldStep(g, f, w, a, w') && CleanWorldStep(g, w, a)
    ensures Inv(g, w'.s) && |w.s.phase| == |w'.s.phase| == |g|
  {
    hide Inv, Apply, Enabled, Clean, FileStep, InRange;
    InvSizes(g, w.s);
    if a.Sched? { StepKeepsInv(g, w.s, a.a); }
    InvSizes(g, w'.s);
  }

  lemma InvSizes(g: seq<Node>, s: State)
    requires Inv(g, s)
    ensures InRange(g, s) && |s.phase| == |g|
  {
  }

  /** A node that a step settles is one whose builder has just ended well. */
  lemma NewlySettled(g: seq<Node>, f: Builders, w: World, a: WorldAction, w': World, d: nat)
    requires Inv(g, w.s) && WorldStep(g, f, w, a, w') && CleanWorldStep(g, w, a)
    requires d < |g| && |w.s.phase| == |w'.s.phase| == |g| && Settled(g, w'.s, d) && !Settled(g, w.s, d)
    ensures a.Sched? && a.a.Succeed? && a.a.w < |w.s.workers| && w.s.workers[a.a.w] == Running(d)
    ensures Produces(g[d].decl)
  {
    hide Inv, Apply, Enabled, Clean, FileStep, InRange, Succeeded;
    if a.Sched? { SucceededStep(g, w.s, a.a, d); }
  }

  lemma StepKeepsFull(g: Graph, f: Builders, fs0: Files, rank: seq<nat>, w: World, a: WorldAction, w': World)
    requires Setting(g, rank) && Inv(g.nodes, w.s) && WorldStep(g.nodes, f, w, a, w') && CleanWorldStep(g.nodes, w, a)
    requires |w.s.phase| == |w'.s.phase| == |g.nodes| && HoldsFull(g, f, fs0, rank, w.s, w.fs)
    ensures HoldsFull(g, f, fs0, rank, w'.s, w'.fs)
  {
    hide Inv, Setting, WorldStep, CleanWorldStep, Settled, HoldsFull;
    SettingGives(g, rank);
    forall d: nat | d < |g.nodes| && g.nodes[d].marks.inSubgraph && Settled(g.nodes, w'.s, d)
      ensures ContentAt(w'.fs, g.nodes[d].decl.output) == Full(g, f, fs0, rank, d)
    {
      FullForOne(g, f, fs0, rank, w, a, w', d);
    }
    HoldsFullIs(g, f, fs0, rank, w'.s, w'.fs);
  }

  lemma SettingGives(g: Graph, rank: seq<nat>)
    requires Setting(g, rank)
    ensures g.Valid() && InputsRanked(g, rank)
  {
  }

  lemma HoldsFullIs(g: Graph, f: Builders, fs0: Files, rank: seq<nat>, s: State, fs: Files)
    requires InputsRanked(g, rank) && |s.phase| == |g.nodes|
    ensures HoldsFull(g, f, fs0, rank, s, fs) <==>
      forall d: nat | d < |g.nodes| && g.nodes[d].marks.inSubgraph && Settled(g.nodes, s, d) ::
        ContentAt(fs, g.nodes[d].decl.output) == Full(g, f, fs0, rank, d)
  {
  }

  lemma FullForOne(g: Graph, f: Builders, fs0: Files, rank: seq<nat>, w: World, a: WorldAction, w': World, d: nat)
    requires Setting(g, rank) && Inv(g.nodes, w.s) && WorldStep(g.nodes, f, w, a, w') && CleanWorldStep(g.nodes, w, a)
    requires InputsRanked(g, rank)
    requires |w.s.phase| == |w'.s.phase| == |g.nodes| && HoldsFull(g, f, fs0, rank, w.s, w.fs)
    requires d < |g.nodes| && g.nodes[d].marks.inSubgraph && Settled(g.nodes, w'.s, d)
    ensures ContentAt(w'.fs, g.nodes[d].decl.output) == Full(g, f, fs0, rank, d)
  {
    if Settled(g.nodes, w.s, d) {
      hide Inv, WorldStep, CleanWorldStep, Settled, Graph.Indexed, WellFormed, Prepared, UpwardClosed;
      SettledIsStable(g, f, w, a, w', d);
    } else {
      hide Inv, Setting, CleanWorldStep, Settled, HoldsFull, Apply, Enabled, InRange, Built;
      NewlySettled(g.nodes, f, w, a, w', d);
      SuccessIsFull(g, f, fs0, rank, w.s, w.fs, a.a.w);
    }
  }

  // ---- Incremental equals from scratch ----

  ghost predicate CleanWorldRun(g: seq<Node>, tr: seq<World>, acts: seq<WorldAction>)
    requires |tr| == |acts| + 1
  {
    forall i | 0 <= i < |acts| :: CleanWorldStep(g, tr[i], acts[i])
  }

  lemma {:induction false} RunKeepsFull(g: Graph, f: Builders, rank: seq<nat>, tr: seq<World>, acts: seq<WorldAction>,
          k: nat)
    requires Setting(g, rank) && InputsRanked(g, rank)
    requires WorldRun(g.nodes, f, tr, acts) && CleanWorldRun(g.nodes, tr, acts) && k <= |acts|
    requires Inv(g.nodes, tr[0].s) && |tr[0].s.phase| == |g.nodes|
    requires HoldsFull(g, f, tr[0].fs, rank, tr[0].s, tr[0].fs)
    ensures |tr| == |acts| + 1
    ensures Inv(g.nodes, tr[k].s) && |tr[k].s.phase| == |g.nodes|
    ensures HoldsFull(g, f, tr[0].fs, rank, tr[k].s, tr[k].fs)
    decreases k
  {
    hide *;
    WorldRunSizes(g.nodes, f, tr, acts);
    if k > 0 {
      RunKeepsFull(g, f, rank, tr, acts, k - 1);
      StepOfRun(g.nodes, f, tr, acts, k - 1);
      WorldStepKeepsInv(g.nodes, f, tr[k - 1], acts[k - 1], tr[k]);
      StepKeepsFull(g, f, tr[0].fs, rank, tr[k - 1], acts[k - 1], tr[k]);
    }
  }

  lemma StepOfRun(g: seq<Node>, f: Builders, tr: seq<World>, acts: seq<WorldAction>, i: nat)
    requires |tr| == |acts| + 1 && WorldRun(g, f, tr, acts) && CleanWorldRun(g, tr, acts) && i < |acts|
    ensures WorldStep(g, f, tr[i], acts[i], tr[i + 1]) && CleanWorldStep(g, tr[i], acts[i])
  {
    hide WorldStep, CleanWorldStep;
  }

  lemma StartHoldsFull(g: Graph, f: Builders, rank: seq<nat>, n: nat, fs: Files)
    requires Setting(g, rank) && InputsRanked(g, rank) && ActiveSet(g.nodes) != {} && CleanTargetsBuilt(g.nodes, f, fs)
    ensures |Start(g.nodes, n).phase| == |g.nodes|
    ensures HoldsFull(g, f, fs, rank, Start(g.nodes, n), fs)
  {
    hide Setting, CleanTargetsBuilt, InputsRanked;
    forall d: nat | d < |g.nodes| && g.nodes[d].marks.inSubgraph && Settled(g.nodes, Start(g.nodes, n), d)
      ensures ContentAt(fs, g.nodes[d].decl.output) == Full(g, f, fs, rank, d)
    {
      CleanHoldsFull(g, f, fs, rank, d);
    }
  }

  /** Whenever the build returns 0, every node of the subgraph holds what a rebuild from scratch gives it. */
  lemma IncrementalEqualsFull(g: Graph, f: Builders, rank: seq<nat>, n: nat, tr: seq<World>, acts: seq<WorldAction>)
    requires Setting(g, rank) && InputsRanked(g, rank) && Fits(g.nodes) && ActiveSet(g.nodes) != {} && n > 0
    requires WorldRun(g.nodes, f, tr, acts) && CleanWorldRun(g.nodes, tr, acts)
    requires tr[0].s == Start(g.nodes, n) && CleanTargetsBuilt(g.nodes, f, tr[0].fs)
    requires tr[|acts|].s.main == Returned(0)
    ensures forall d: nat | d < |g.nodes| && g.nodes[d].marks.inSubgraph ::
      ContentAt(tr[|acts|].fs, g.nodes[d].decl.output) == Full(g, f, tr[0].fs, rank, d)
  {
    hide Inv, Setting, WorldRun, CleanWorldRun, InputsRanked, CleanTargetsBuilt, Start, HoldsFull, Settled, Prepared,
         UpwardClosed, WellFormed, Graph.Indexed, InRange;
    WorldRunSizes(g.nodes, f, tr, acts);
    SettingPrepared(g, rank);
    StartsInInv(g.nodes, n);
    StartHoldsFull(g, f, rank, n, tr[0].fs);
    RunKeepsFull(g, f, rank, tr, acts, |acts|);
    AllSettled(g.nodes, tr[|acts|].s);
    HoldsFullIs(g, f, tr[0].fs, rank, tr[|acts|].s, tr[|acts|].fs);
  }

  lemma SettingPrepared(g: Graph, rank: seq<nat>)
    requires Setting(g, rank)
    ensures Prepared(g.nodes) && UpwardClosed(g.nodes)
  {
  }

  lemma WorldRunSizes(g: seq<Node>, f: Builders, tr: seq<World>, acts: seq<WorldAction>)
    requires WorldRun(g, f, tr, acts)
    ensures |tr| == |acts| + 1
  {
  }

  lemma AllSettled(g: seq<Node>, s: State)
    requires Inv(g, s) && Prepared(g) && s.main == Returned(0)
    ensures |s.phase| == |g|
    ensures forall d: nat | d < |g| && g[d].marks.inSubgraph :: Settled(g, s, d)
    ensures forall d: nat | d < |g| && Active(g, d) :: s.phase[d].Done?
  {
    TerminationTheorems.ReturnCode(g, s);
  }

  lemma SafeWorldStepIsClean(g: seq<Node>, f: Builders, w: World, a: WorldAction, w': World)
    requires Prepared(g) && UpwardClosed(g) && SeedRace.SafeOrder(g) && Inv(g, w.s) && WorldStep(g, f, w, a, w')
    ensures CleanWorldStep(g, w, a)
  {
    hide Inv, Prepared, UpwardClosed, SeedRace.SafeOrder, InRange, Enabled, Clean, Apply, FileStep;
    if a.Sched? { SeedRace.SafeSeedIsClean(g, w.s, a.a); }
  }

  /** In safe order every run of the world is clean, whatever the interleaving. */
  lemma {:induction false} SafeWorldRunIsClean(g: seq<Node>, f: Builders, tr: seq<World>, acts: seq<WorldAction>,
          k: nat)
    requires Prepared(g) && UpwardClosed(g) && SeedRace.SafeOrder(g)
    requires WorldRun(g, f, tr, acts) && Inv(g, tr[0].s) && k <= |acts|
    ensures Inv(g, tr[k].s) && forall i | 0 <= i < k :: CleanWorldStep(g, tr[i], acts[i])
    decreases k
  {
    hide Inv, Prepared, UpwardClosed, SeedRace.SafeOrder, WorldStep, CleanWorldStep;
    if k > 0 {
      SafeWorldRunIsClean(g, f, tr, acts, k - 1);
      SafeWorldStepIsClean(g, f, tr[k - 1], acts[k - 1], tr[k]);
      WorldStepKeepsInv(g, f, tr[k - 1], acts[k - 1], tr[k]);
    }
  }

  ghost predicate GuardedWorldRun(g: seq<Node>, tr: seq<World>, acts: seq<WorldAction>)
    requires |tr| == |acts| + 1
  {
    forall i | 0 <= i < |acts| && acts[i].Sched? ::
      InRange(g, tr[i].s) && Enabled(g, tr[i].s, acts[i].a) && !EarlyDecrement(g, tr[i].s, acts[i].a)
  }

  /** So is every run in which no counter is decremented before the seed scan has ended. */
  lemma {:induction false} GuardedWorldRunIsClean(g: seq<Node>, f: Builders, tr: seq<World>, acts: seq<WorldAction>,
          k: nat)
    requires WorldRun(g, f, tr, acts) && GuardedWorldRun(g, tr, acts) && k <= |acts|
    requires CountersUntouched(g, tr[0].s)
    ensures forall i | 0 <= i < k :: CleanWorldStep(g, tr[i], acts[i])
    ensures Scanning(tr[k].s.main) ==> CountersUntouched(g, tr[k].s)
    decreases k
  {
    if k > 0 {
      hide CountersUntouched, InRange, Enabled, Clean, Apply, FileStep, EarlyDecrement;
      GuardedWorldRunIsClean(g, f, tr, acts, k - 1);
      assert WorldStep(g, f, tr[k - 1], acts[k - 1], tr[k]);
      if acts[k - 1].Sched? { GuardedStep(g, tr[k - 1].s, acts[k - 1].a); }
    }
  }

  // ---- The second build finds nothing to do ----

  /** The output of `d` exists and no input of it is missing or newer. */
  ghost predicate UpToDate(fs: Files, d: Decl) {
    !OutOfDate(TimesOf(fs), d)
  }

  /** What the null-rebuild theorem asks of the build description and of the files at the start. */
  ghost predicate Reproducible(g: seq<Node>, fs: Files) {
    && (forall d | 0 <= d < |g| && g[d].marks.inSubgraph :: !g[d].decl.alwaysDirty && g[d].decl.output != "")
    && (forall d | 0 <= d < |g| && g[d].marks.inSubgraph && !g[d].decl.isTarget :: g[d].decl.output in fs)
    && (forall d | 0 <= d < |g| && g[d].marks.inSubgraph && g[d].decl.isTarget && !g[d].decl.phony ::
        g[d].decl.builder.Some?)
    && (forall d: nat, m: nat | d < |g| && m < |g| && g[d].marks.inSubgraph && !g[d].decl.phony && m in g[d].waitsOn ::
          !g[m].decl.phony)
  }

  ghost predicate StampedBy(fs: Files, clock: Time) {
    forall p | p in fs :: NotAfter(fs[p].mtime, clock)
  }

  ghost predicate AllUpToDate(g: seq<Node>, s: State, fs: Files)
    requires |s.phase| == |g|
  {
    forall d: nat | d < |g| && g[d].marks.inSubgraph && !g[d].decl.phony && Settled(g, s, d) ::
      UpToDate(fs, g[d].decl)
  }

  lemma OrderOfTimes(a: Time, b: Time, c: Time)
    ensures NotAfter(a, b) && NotAfter(b, c) ==> NotAfter(a, c)
    ensures NotAfter(a, b) <==> !Newer(b, a)
  {
  }

  lemma StampsGrow(g: seq<Node>, f: Builders, w: World, a: WorldAction, w': World)
    requires WorldStep(g, f, w, a, w') && StampedBy(w.fs, w.clock)
    ensures StampedBy(w'.fs, w'.clock)
  {
    hide Apply, InRange, Enabled, Built;
  }

  /** Whether a node is up to date depends only on the files at its output and its inputs. */
  lemma UpToDateFrame(fs: Files, fs': Files, d: Decl)
    requires UpToDate(fs, d)
    requires forall p | p == d.output || p in d.sources + d.deps :: FileAt(fs, p) == FileAt(fs', p)
    ensures UpToDate(fs', d)
  {
    forall p | p == d.output || p in d.sources + d.deps
      ensures Stat(TimesOf(fs'), p) == Stat(TimesOf(fs), p)
    {
      assert FileAt(fs, p) == FileAt(fs', p);
    }
    assert forall k | 0 <= k < |d.sources| :: d.sources[k] in d.sources + d.deps;
    assert forall k | 0 <= k < |d.deps| :: d.deps[k] in d.sources + d.deps;
  }

  /** A stamp with the current time is up to date if the inputs exist and are not from the future. */
  lemma StampIsUpToDate(fs: Files, fs': Files, d: Decl, clock: Time, clock': Time, c: Content)
    requires fs' == fs[d.output := File(clock', c)] && d.output != "" && NotAfter(clock, clock') && StampedBy(fs, clock)
    requires forall p | p in d.sources + d.deps :: p in fs && p != ""
    ensures UpToDate(fs', d)
  {
    forall p | p in d.sources + d.deps
      ensures !InputStale(TimesOf(fs'), clock', p)
    {
      OrderOfTimes(fs[p].mtime, clock, clock');
    }
    assert forall k | 0 <= k < |d.sources| :: d.sources[k] in d.sources + d.deps;
    assert forall k | 0 <= k < |d.deps| :: d.deps[k] in d.sources + d.deps;
  }

  /** A node without inputs is up to date if its file exists. */
  lemma LeafUpToDate(g: Graph, fs: Files, d: nat)
    requires g.Valid() && d < |g.nodes| && !g.nodes[d].decl.isTarget
    requires g.nodes[d].decl.output in fs && g.nodes[d].decl.output != ""
    ensures UpToDate(fs, g.nodes[d].decl)
  {
    hide Mirrored, Graph.Indexed;
    var decl := g.nodes[d].decl;
    assert Outputs(g.nodes, g.nodes[d].waitsOn) == [];
    assert |multiset(decl.sources + decl.deps)| == |decl.sources + decl.deps|;
  }

  /** The settled nodes other than phony ones are clean or have succeeded, and so are settled their inputs. */
  lemma SettledInputs(g: Graph, rank: seq<nat>, fs0: Files, s: State, d: nat, m: nat)
    requires Setting(g, rank) && Inv(g.nodes, s) && |s.phase| == |g.nodes| && Reproducible(g.nodes, fs0)
    requires d < |g.nodes| && g.nodes[d].marks.inSubgraph && !g.nodes[d].decl.phony && Settled(g.nodes, s, d)
    requires m in g.nodes[d].waitsOn && m < |g.nodes|
    ensures g.nodes[m].marks.inSubgraph && !g.nodes[m].decl.phony && Settled(g.nodes, s, m)
  {
    hide Graph.Indexed, Mirrored, PendingCounted, QueueHolds, Hands, WaitingOk, PendingOk, VisitedOk, StartedOk,
         RemainingOk, ErrorsOk, MainWaits, MainLeft, QueueServed, ShutdownOk, JoinedOk, Succeeded, Holders, Ranked,
         InputsRanked;
    assert g.nodes[d].decl.isTarget;
    if Active(g.nodes, m) {
      assert Active(g.nodes, d) && Succeeded(g.nodes, s, d);
      SucceededLeft(g.nodes, s, d);
      InputSucceeded(g.nodes, s, d, m);
    }
  }

  lemma StepKeepsUpToDate(g: Graph, rank: seq<nat>, f: Builders, fs0: Files, w: World, a: WorldAction, w': World,
          d: nat)
    requires Setting(g, rank) && Inv(g.nodes, w.s) && WorldStep(g.nodes, f, w, a, w') && CleanWorldStep(g.nodes, w, a)
    requires |w.s.phase| == |w'.s.phase| == |g.nodes| && Reproducible(g.nodes, fs0)
    requires StampedBy(w.fs, w.clock) && AllUpToDate(g.nodes, w.s, w.fs)
    requires d < |g.nodes| && g.nodes[d].marks.inSubgraph && !g.nodes[d].decl.phony && Settled(g.nodes, w'.s, d)
    ensures UpToDate(w'.fs, g.nodes[d].decl)
  {
    hide Inv, WorldStep, CleanWorldStep, Settled, Setting, UpToDate, Graph.Indexed, WellFormed, Reproducible;
    SettingGives(g, rank);
    var decl := g.nodes[d].decl;
    if Settled(g.nodes, w.s, d) {
      SettledIsStable(g, f, w, a, w', d);
      forall p | p in decl.sources + decl.deps
        ensures FileAt(w.fs, p) == FileAt(w'.fs, p)
      {
        InputIsWaitedOn(g, d, p);
        SettledInputs(g, rank, fs0, w.s, d, g.index[p]);
        SettledIsStable(g, f, w, a, w', g.index[p]);
      }
      UpToDateFrame(w.fs, w'.fs, decl);
    } else {
      NewlySettled(g.nodes, f, w, a, w', d);
      SuccessIsUpToDate(g, rank, f, fs0, w, a, w', d);
    }
  }

  lemma SuccessIsUpToDate(g: Graph, rank: seq<nat>, f: Builders, fs0: Files, w: World, a: WorldAction, w': World,
          d: nat)
    requires Setting(g, rank) && Inv(g.nodes, w.s) && WorldStep(g.nodes, f, w, a, w')
    requires |w.s.phase| == |g.nodes| && Reproducible(g.nodes, fs0)
    requires StampedBy(w.fs, w.clock) && AllUpToDate(g.nodes, w.s, w.fs)
    requires a.Sched? && a.a.Succeed? && a.a.w < |w.s.workers| && w.s.workers[a.a.w] == Running(d)
    requires d < |g.nodes| && g.nodes[d].marks.inSubgraph && Produces(g.nodes[d].decl)
    ensures UpToDate(w'.fs, g.nodes[d].decl)
  {
    hide Inv, Settled, Graph.Indexed, WellFormed, Ranked, InputsRanked, ClosedSubgraph, PendingCounted, UpwardClosed,
         Enabled, Apply, InRange, Built, OutOfDate;
    var decl := g.nodes[d].decl;
    forall p | p in decl.sources + decl.deps
      ensures p in w.fs && p != ""
    {
      InputIsWaitedOn(g, d, p);
      RunningInputsSettled(g.nodes, w.s, a.a.w, g.index[p]);
      UpToDateExists(w.fs, g.nodes[g.index[p]].decl);
    }
    StampIsUpToDate(w.fs, w'.fs, decl, w.clock, w'.clock, Built(f, w.fs, decl));
  }

  lemma UpToDateExists(fs: Files, d: Decl)
    requires UpToDate(fs, d)
    ensures d.output in fs && d.output != ""
  {
  }

  lemma {:induction false} RunKeepsUpToDate(g: Graph, rank: seq<nat>, f: Builders, tr: seq<World>,
          acts: seq<WorldAction>, k: nat)
    requires WorldRun(g.nodes, f, tr, acts) && CleanWorldRun(g.nodes, tr, acts) && k <= |acts|
    requires Setting(g, rank) && Reproducible(g.nodes, tr[0].fs)
    requires Inv(g.nodes, tr[0].s) && |tr[0].s.phase| == |g.nodes|
    requires StampedBy(tr[0].fs, tr[0].clock) && AllUpToDate(g.nodes, tr[0].s, tr[0].fs)
    ensures Inv(g.nodes, tr[k].s) && |tr[k].s.phase| == |g.nodes|
    ensures StampedBy(tr[k].fs, tr[k].clock) && AllUpToDate(g.nodes, tr[k].s, tr[k].fs)
    decreases k
  {
    hide Inv, Setting, WorldStep, CleanWorldStep, Reproducible, StampedBy, Settled, UpToDate;
    if k > 0 {
      RunKeepsUpToDate(g, rank, f, tr, acts, k - 1);
      var w, a, w' := tr[k - 1], acts[k - 1], tr[k];
      WorldStepKeepsInv(g.nodes, f, w, a, w');
      StampsGrow(g.nodes, f, w, a, w');
      forall d: nat | d < |g.nodes| && g.nodes[d].marks.inSubgraph && !g.nodes[d].decl.phony
          && Settled(g.nodes, w'.s, d)
        ensures UpToDate(w'.fs, g.nodes[d].decl)
      {
        StepKeepsUpToDate(g, rank, f, tr[0].fs, w, a, w', d);
      }
    }
  }

  lemma StartUpToDate(g: Graph, rank: seq<nat>, n: nat, fs: Files, roots: set<nat>)
    requires Setting(g, rank) && Reproducible(g.nodes, fs) && ActiveSet(g.nodes) != {}
    requires MarksExact(g.nodes, TimesOf(fs), roots)
    ensures |Start(g.nodes, n).phase| == |g.nodes|
    ensures AllUpToDate(g.nodes, Start(g.nodes, n), fs)
  {
    hide Ranked, InputsRanked, Mirrored, EdgesNamePaths, Graph.Indexed, Reach, OutOfDate, PendingCounted,
         ClosedSubgraph, UpwardClosed, Dirty;
    forall d: nat | d < |g.nodes| && g.nodes[d].marks.inSubgraph && !g.nodes[d].decl.phony
        && Settled(g.nodes, Start(g.nodes, n), d)
      ensures UpToDate(fs, g.nodes[d].decl)
    {
      if g.nodes[d].decl.isTarget {
        DirtyUnfolds(g.nodes, TimesOf(fs), d);
      } else {
        LeafUpToDate(g, fs, d);
      }
    }
  }

  /** Nothing in the subgraph is dirty for the files that a successful build leaves. */
  lemma NothingDirty(g: seq<Node>, s: State, fs0: Files, fs: Files, d: nat)
    requires Prepared(g) && Reproducible(g, fs0) && |s.phase| == |g| && AllUpToDate(g, s, fs)
    requires forall i: nat | i < |g| && g[i].marks.inSubgraph :: Settled(g, s, i)
    requires d < |g| && g[d].marks.inSubgraph
    ensures !Dirty(g, TimesOf(fs), d)
  {
    hide PendingCounted, Settled, OutOfDate, Mirrored, EdgesNamePaths;
    if Dirty(g, TimesOf(fs), d) {
      var r: nat :| r < |g| && Reach(g, d, r) && StaleItself(TimesOf(fs), g[r].decl);
      var k: nat :| ReachIn(g, d, r, k);
      ReachStaysInSubgraph(g, d, r, k);
      assert false;
    }
  }

  lemma {:induction false} ReachStaysInSubgraph(g: seq<Node>, d: nat, r: nat, k: nat)
    requires IdsInRange(g) && ClosedSubgraph(g) && ReachIn(g, d, r, k) && g[d].marks.inSubgraph
    ensures r < |g| && g[r].marks.inSubgraph
    decreases k
  {
    if k > 0 {
      var m :| m in g[d].waitsOn && ReachIn(g, m, r, k - 1);
      ReachStaysInSubgraph(g, m, r, k - 1);
    }
  }

  /** The null rebuild: after a build that returned 0, planning the same targets again marks nothing dirty. */
  lemma NullRebuild(g: Graph, rank: seq<nat>, f: Builders, n: nat, tr: seq<World>, acts: seq<WorldAction>,
                    roots: set<nat>, again: seq<Node>)
    requires Setting(g, rank) && Fits(g.nodes) && ActiveSet(g.nodes) != {} && n > 0
    requires WorldRun(g.nodes, f, tr, acts) && CleanWorldRun(g.nodes, tr, acts)
    requires tr[0].s == Start(g.nodes, n) && tr[|acts|].s.main == Returned(0)
    requires MarksExact(g.nodes, TimesOf(tr[0].fs), roots)
    requires Reproducible(g.nodes, tr[0].fs) && StampedBy(tr[0].fs, tr[0].clock)
    requires SameStructure(g.nodes, again) && MarksExact(again, TimesOf(tr[|acts|].fs), roots)
    ensures ActiveSet(again) == {}
  {
    hide Inv, Setting, WorldStep, CleanWorldStep, Reproducible, StampedBy, Settled, UpToDate, Start, Prepared, Dirty,
         Reach, AllUpToDate, Fits;
    SettingPrepared(g, rank);
    StartsInInv(g.nodes, n);
    StartUpToDate(g, rank, n, tr[0].fs, roots);
    RunKeepsUpToDate(g, rank, f, tr, acts, |acts|);
    var s, fs := tr[|acts|].s, tr[|acts|].fs;
    AllSettled(g.nodes, s);
    forall i: nat | i < |again|
      ensures !Active(again, i)
    {
      SameSubgraph(g.nodes, again, roots, i);
      if again[i].marks.inSubgraph {
        NothingDirty(g.nodes, s, tr[0].fs, fs, i);
        StructureKeepsDirty(g.nodes, again, TimesOf(fs), i);
      }
    }
  }

  lemma SameSubgraph(g: seq<Node>, h: seq<Node>, roots: set<nat>, i: nat)
    requires SameStructure(g, h) && SubgraphExact(g, roots) && SubgraphExact(h, roots) && i < |g|
    ensures g[i].marks.inSubgraph <==> h[i].marks.inSubgraph
  {
    hide Reach;
    forall r | r in roots ensures Reach(g, r, i) <==> Reach(h, r, i) { StructureKeepsReach(g, h, r, i); }
  }

  // ---- How the two theorems are entered ----

  /** A `zmm_bg_prepare` that returns 0 on an acyclic graph sets the scene. */
  lemma PreparedSetting(g: Graph, rank: seq<nat>, fs: Times, roots: set<nat>)
    requires g.Valid() && Ranked(g.nodes, rank) && Prepared(g.nodes) && MarksExact(g.nodes, fs, roots)
    ensures Setting(g, rank)
  {
    hide Graph.Indexed, WellFormed, MarksExact, Ranked, ClosedSubgraph, PendingCounted;
    RankedInputs(g, rank);
    ExactIsUpwardClosed(g.nodes, fs, roots);
  }

  /** When nothing is dirty `zmm_bg_exec` returns 0 at once, and rightly so. */
  lemma NothingToDo(g: Graph, f: Builders, rank: seq<nat>, fs: Files)
    requires Setting(g, rank) && InputsRanked(g, rank) && CleanTargetsBuilt(g.nodes, f, fs) && ActiveSet(g.nodes) == {}
    ensures forall d: nat | d < |g.nodes| && g.nodes[d].marks.inSubgraph ::
      ContentAt(fs, g.nodes[d].decl.output) == Full(g, f, fs, rank, d)
  {
    hide Setting, CleanTargetsBuilt, InputsRanked;
    forall d: nat | d < |g.nodes| && g.nodes[d].marks.inSubgraph
      ensures ContentAt(fs, g.nodes[d].decl.output) == Full(g, f, fs, rank, d)
    {
      assert d !in ActiveSet(g.nodes);
      CleanHoldsFull(g, f, fs, rank, d);
    }
  }

  // ---- A build that can succeed does ----

  function Scheduled(acts: seq<Action>): (r: seq<WorldAction>)
    ensures |r| == |acts| && forall k | 0 <= k < |acts| :: r[k] == Sched(acts[k])
  {
    if acts == [] then [] else [Sched(acts[0])] + Scheduled(acts[1..])
  }

  /** The files after one step of the pool, when no builder writes more than its product. */
  ghost function FilesAfter(g: seq<Node>, f: Builders, s: State, a: Action, fs: Files, clock: Time): Files
    requires InRange(g, s) && Enabled(g, s, a)
  {
    match a
    case Succeed(v) =>
      var d := g[s.workers[v].node].decl;
      if Produces(d) then fs[d.output := File(clock, Built(f, fs, d))] else fs
    case _ => fs
  }

  lemma FilesFollow(g: seq<Node>, f: Builders, s: State, a: Action, fs: Files, clock: Time)
    requires InRange(g, s) && Enabled(g, s, a) && StampedBy(fs, clock)
    ensures var fs' := FilesAfter(g, f, s, a, fs, clock);
            WorldStep(g, f, World(s, fs, clock), Sched(a), World(Apply(g, s, a), fs', clock)) && StampedBy(fs', clock)
  {
    hide Apply, IdsInRange, RingInRange, MainInRange, Built;
  }

  /** Every run of the pool is the schedule of some run of the world. */
  lemma {:induction false} WorldFollows(g: seq<Node>, f: Builders, s: State, acts: seq<Action>, t: State, fs: Files,
          clock: Time)
    returns (tr: seq<World>)
    requires CleanRun(g, s, acts, t) && StampedBy(fs, clock)
    ensures WorldRun(g, f, tr, Scheduled(acts)) && CleanWorldRun(g, tr, Scheduled(acts))
    ensures tr[0] == World(s, fs, clock) && tr[|acts|].s == t
    decreases |acts|
  {
    hide Apply, Enabled, Clean, InRange, StampedBy;
    if acts == [] {
      tr := [World(s, fs, clock)];
    } else {
      FilesFollow(g, f, s, acts[0], fs, clock);
      var fs' := FilesAfter(g, f, s, acts[0], fs, clock);
      var rest := WorldFollows(g, f, Apply(g, s, acts[0]), acts[1..], t, fs', clock);
      tr := FirstWorld(g, f, World(s, fs, clock), acts, rest);
    }
  }

  lemma FirstWorld(g: seq<Node>, f: Builders, w: World, acts: seq<Action>, rest: seq<World>) returns (tr: seq<World>)
    requires acts != [] && WorldRun(g, f, rest, Scheduled(acts[1..])) && CleanWorldRun(g, rest, Scheduled(acts[1..]))
    requires WorldStep(g, f, w, Sched(acts[0]), rest[0]) && CleanWorldStep(g, w, Sched(acts[0]))
    ensures WorldRun(g, f, tr, Scheduled(acts)) && CleanWorldRun(g, tr, Scheduled(acts))
    ensures tr[0] == w && tr[|acts|] == rest[|acts| - 1]
  {
    hide WorldStep, CleanWorldStep;
    tr := [w] + rest;
    forall i | 0 <= i < |acts|
      ensures WorldStep(g, f, tr[i], Scheduled(acts)[i], tr[i + 1]) && CleanWorldStep(g, tr[i], Scheduled(acts)[i])
    {
      if i > 0 {
        assert Scheduled(acts)[i] == Scheduled(acts[1..])[i - 1];
        assert WorldStep(g, f, rest[i - 1], Scheduled(acts[1..])[i - 1], rest[i - 1 + 1]);
        assert CleanWorldStep(g, rest[i - 1], Scheduled(acts[1..])[i - 1]);
      }
    }
  }

  /** From a prepared graph there is a build that ends with 0 and leaves the from-scratch contents: what the theorems
      above say of such builds is not said of nothing. */
  lemma BuildDelivers(g: Graph, f: Builders, rank: seq<nat>, n: nat, fs: Files, clock: Time)
    returns (tr: seq<World>, acts: seq<Action>)
    requires Setting(g, rank) && InputsRanked(g, rank) && Fits(g.nodes) && ActiveSet(g.nodes) != {} && n > 0
    requires CleanTargetsBuilt(g.nodes, f, fs) && StampedBy(fs, clock)
    ensures WorldRun(g.nodes, f, tr, Scheduled(acts)) && CleanWorldRun(g.nodes, tr, Scheduled(acts))
    ensures tr[0] == World(Start(g.nodes, n), fs, clock) && tr[|acts|].s.main == Returned(0)
    ensures forall d: nat | d < |g.nodes| && g.nodes[d].marks.inSubgraph ::
      ContentAt(tr[|acts|].fs, g.nodes[d].decl.output) == Full(g, f, fs, rank, d)
  {
    hide Setting, InputsRanked, Fits, CleanTargetsBuilt, StampedBy, Prepared, UpwardClosed, Acyclic, Untangled, Inv,
         Start, CleanRun, CleanWorldRun, WorldStep, ActiveSet;
    var s := Start(g.nodes, n);
    SettingPrepared(g, rank);
    SettingAcyclic(g, rank);
    AcyclicIsUntangled(g.nodes);
    StartsInInv(g.nodes, n);
    InvSizes(g.nodes, s);
    var t;
    acts, t := Finishing.UntangledFinishes(g.nodes, n);
    tr := WorldFollows(g.nodes, f, s, acts, t, fs, clock);
    IncrementalEqualsFull(g, f, rank, n, tr, Scheduled(acts));
  }

  lemma SettingAcyclic(g: Graph, rank: seq<nat>)
    requires Setting(g, rank)
    ensures Acyclic(g.nodes)
  {
    hide Ranked;
  }
}
