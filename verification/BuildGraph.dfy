/** The `BuildGraph` object: the calls that build it and the planner that marks it. */
module BuildGraphs {
  import opened Basics
  import opened Graphs
  import opened GraphApi
  import opened Plans

  class BuildGraph {
    var nodes: seq<Node>
    var index: map<Path, nat>
    var remainingDirty: nat

    ghost function Abs(): (g: Graph)
      reads this
    {
      Graph(nodes, index)
    }

    /** What is known about a path. */
    ghost function Known(path: Path): Decl
      requires Abs().Indexed() && path in index
      reads this
    {
      nodes[index[path]].decl
    }

    constructor ()
      ensures Abs() == EmptyGraph && Abs().Valid() && remainingDirty == 0
    {
      nodes, index, remainingDirty := [], map[], 0;
    }

    // ---- Building the graph ----

    method GetOrPutNode(path: Path) returns (id: nat)
      requires Abs().Indexed()
      modifies this`nodes, this`index
      ensures Abs() == WithNode(old(Abs()), path)
      ensures path in index && id == index[path]
      ensures path in old(index) ==> nodes == old(nodes) && index == old(index)
      ensures path !in old(index) ==>
                && |nodes| == |old(nodes)| + 1 && nodes[..|old(nodes)|] == old(nodes) && id == |old(nodes)|
                && var n := nodes[id];
                   && n.decl.output == path && n.decl.sources == n.decl.deps == [] && n.decl.builder.None?
                   && !n.decl.isTarget && !n.decl.phony && !n.decl.alwaysDirty
                   && n.dependents == n.waitsOn == [] && !n.marks.inSubgraph && !n.marks.isDirty
    {
      if path in index { return index[path]; }
      id := |nodes|;
      nodes := nodes + [FreshNode(path)];
      index := index[path := id];
    }

    method AddDependencyEdge(t: nat, path: Path)
      requires Abs().Indexed() && t < |nodes|
      modifies this`nodes, this`index
      ensures var g := WithNode(old(Abs()), path);
              && path in g.index && g.index[path] < |g.nodes| && t < |g.nodes|
              && Abs() == Graph(AddEdge(g.nodes, t, g.index[path]), g.index)
    {
      var d := GetOrPutNode(path);
      nodes := nodes[d := nodes[d].(dependents := nodes[d].dependents + [t])];
      nodes := nodes[t := nodes[t].(waitsOn := nodes[t].waitsOn + [d])];
    }

    method TgInit(output: Path, builder: Option<nat>) returns (t: nat)
      requires Abs().Valid()
      modifies this`nodes, this`index
      ensures Abs().Valid() && output in index && t == index[output]
      ensures var g := WithNode(old(Abs()), output);
              && t < |g.nodes|
              && Abs() == Redeclare(g, t, g.nodes[t].decl.(isTarget := true, builder := builder))
    {
      t := GetOrPutNode(output);
      WithNodeKeepsValid(old(Abs()), output);
      ghost var g := Abs();
      nodes := nodes[t := nodes[t].(decl := nodes[t].decl.(isTarget := true, builder := builder))];
      RedeclareKeepsValid(g, t, nodes[t].decl);
    }

    method TgSetPhony(t: nat)
      requires Abs().Valid() && t < |nodes|
      modifies this`nodes
      ensures Abs().Valid()
      ensures Abs() == Redeclare(old(Abs()), t, old(nodes)[t].decl.(phony := true))
    {
      ghost var g := Abs();
      nodes := nodes[t := nodes[t].(decl := nodes[t].decl.(phony := true))];
      RedeclareKeepsValid(g, t, nodes[t].decl);
    }

    method TgSetAlwaysDirty(t: nat)
      requires Abs().Valid() && t < |nodes|
      modifies this`nodes
      ensures Abs().Valid()
      ensures Abs() == Redeclare(old(Abs()), t, old(nodes)[t].decl.(alwaysDirty := true))
    {
      ghost var g := Abs();
      nodes := nodes[t := nodes[t].(decl := nodes[t].decl.(alwaysDirty := true))];
      RedeclareKeepsValid(g, t, nodes[t].decl);
    }

    /** The body of the loops of `zmm_tg_add_src` and `zmm_tg_add_dep`. */
    method AddOneInput(t: nat, kind: InputKind, path: Path)
      requires Abs().Indexed() && t < |nodes|
      modifies this`nodes, this`index
      ensures Abs() == AddInput(old(Abs()), t, kind, path)
    {
      nodes := List(nodes, t, kind, path);
      AddDependencyEdge(t, path);
    }

    /** `zmm_tg_add_src` and `zmm_tg_add_dep`: the loop stops at the first empty path. */
    method TgAddInputs(t: nat, kind: InputKind, paths: seq<Path>) returns (code: int)
      requires Abs().Valid() && t < |nodes| && nodes[t].decl.isTarget
      modifies this`nodes, this`index
      ensures Abs().Valid()
      ensures InputsAdded(old(nodes), nodes, t, kind, Taken(paths))
      ensures code == if "" in paths then 1 else 0
    {
      hide Mirrored, EdgesNamePaths, IdsInRange, InputsAdded, GraphApi.Graph.Indexed, AddInput;
      ghost var g := nodes;
      NoInputsAdded(g, t, kind);
      var i := 0;
      while i < |paths|
        invariant i <= |paths| && Taken(paths[..i]) == paths[..i]
        invariant Abs().Valid() && t < |nodes|
        invariant InputsAdded(g, nodes, t, kind, paths[..i])
      {
        TakenStep(paths, i);
        if paths[i] == "" { return 1; }
        AddInputTurn(g, Abs(), t, kind, paths[..i], paths[i]);
        AddOneInput(t, kind, paths[i]);
        assert paths[..i + 1] == paths[..i] + [paths[i]];
        i := i + 1;
      }
      assert paths[..i] == paths;
      return 0;
    }

    /** `zmm_bg_add`: declares a target with its sources and dependencies. */
    method Add(sources: seq<Path>, output: Path, deps: seq<Path>, builder: Option<nat>, alwaysDirty: bool)
      returns (code: int)
      requires Abs().Valid()
      modifies this`nodes, this`index
      ensures Abs().Valid()
      ensures code == if "" in sources || "" in deps then 1 else 0
      ensures TargetAdded(old(Abs()), Abs(), output, AddedDecl(old(Abs()), sources, output, deps, builder, alwaysDirty))
      ensures output in index && index[output] < |nodes|
      ensures var d := nodes[index[output]].decl;
              && d.output == output && d.isTarget && d.builder == builder
              && d.phony == (output in old(index) && old(Known(output)).phony)
              && d.alwaysDirty == (alwaysDirty || (output in old(index) && old(Known(output)).alwaysDirty))
      ensures var d, s, e := nodes[index[output]].decl, old(SourcesOf(Abs(), output)), old(DepsOf(Abs(), output));
              && (code == 0 ==> d.sources == s + sources && d.deps == e + deps)
              && (forall k: nat | FirstEmpty(sources, k) :: d.sources == s + sources[..k] && d.deps == e)
              && (forall k: nat | "" !in sources && FirstEmpty(deps, k) ::
                    d.sources == s + sources && d.deps == e + deps[..k])
      ensures forall i | |old(nodes)| <= i < |nodes| && i != index[output] ::
                var d := nodes[i].decl;
                && (d.output in nodes[index[output]].decl.sources || d.output in nodes[index[output]].decl.deps)
                && !d.isTarget && !d.phony && !d.alwaysDirty && d.builder.None? && d.sources == d.deps == []
    {
      hide WellFormed, GraphApi.Graph.Indexed, TargetAdded, InputsAdded, WithNode, Taken, AddedDecl;
      ghost var g0 := Abs();
      WithNodeKeepsValid(g0, output);
      AddedDeclSteps(g0, sources, output, deps, builder, alwaysDirty);
      var t := TgInit(output, builder);
      ghost var g1 := Abs();
      InitAddsTarget(g0, g1, t, output, builder);
      ghost var d1 := nodes[t].decl;
      if alwaysDirty { TgSetAlwaysDirty(t); }
      ghost var g2, d2 := Abs(), nodes[t].decl;
      FlagAddsTarget(g0, g1, g2, t, output, d1, alwaysDirty);
      WellFormedIds(nodes);
      code := TgAddInputs(t, Source, sources);
      WellFormedIds(nodes);
      ghost var g3 := Abs();
      InputsAddTarget(g0, g2, g3, t, output, d2, Source, Taken(sources));
      ghost var d3 := nodes[t].decl;
      if code == 0 && |deps| > 0 {
        code := TgAddInputs(t, Dep, deps);
        WellFormedIds(nodes);
        InputsAddTarget(g0, g3, Abs(), t, output, d3, Dep, Taken(deps));
      }
      AddedInFull(g0, Abs(), sources, output, deps, builder, alwaysDirty, false);
      AddedInputs(g0, Abs(), sources, output, deps, builder, alwaysDirty, false);
    }

    /** `zmm_bg_add_phony`. */
    method AddPhony(sources: seq<Path>, output: Path, deps: seq<Path>, builder: Option<nat>, alwaysDirty: bool)
      returns (code: int)
      requires Abs().Valid()
      modifies this`nodes, this`index
      ensures Abs().Valid()
      ensures code == if "" in sources || "" in deps then 1 else 0
      ensures var d := AddedDecl(old(Abs()), sources, output, deps, builder, alwaysDirty);
              TargetAdded(old(Abs()), Abs(), output, if code == 0 then d.(phony := true) else d)
      ensures output in index && index[output] < |nodes|
      ensures var d := nodes[index[output]].decl;
              && d.output == output && d.isTarget && d.builder == builder
              && d.phony == (code == 0 || (output in old(index) && old(Known(output)).phony))
              && d.alwaysDirty == (alwaysDirty || (output in old(index) && old(Known(output)).alwaysDirty))
      ensures var d, s, e := nodes[index[output]].decl, old(SourcesOf(Abs(), output)), old(DepsOf(Abs(), output));
              && (code == 0 ==> d.sources == s + sources && d.deps == e + deps)
              && (forall k: nat | FirstEmpty(sources, k) :: d.sources == s + sources[..k] && d.deps == e)
              && (forall k: nat | "" !in sources && FirstEmpty(deps, k) ::
                    d.sources == s + sources && d.deps == e + deps[..k])
      ensures forall i | |old(nodes)| <= i < |nodes| && i != index[output] ::
                var d := nodes[i].decl;
                && (d.output in nodes[index[output]].decl.sources || d.output in nodes[index[output]].decl.deps)
                && !d.isTarget && !d.phony && !d.alwaysDirty && d.builder.None? && d.sources == d.deps == []
    {
      hide WellFormed, GraphApi.Graph.Indexed, TargetAdded, AddedDecl, WithNode;
      ghost var g0 := Abs();
      code := Add(sources, output, deps, builder, alwaysDirty);
      if code != 0 { return 1; }
      ghost var g1 := Abs();
      var t := GetOrPutNode(output);
      TgSetPhony(t);
      PhonyAdded(g0, g1, Abs(), output, AddedDecl(g0, sources, output, deps, builder, alwaysDirty));
      AddedInFull(g0, Abs(), sources, output, deps, builder, alwaysDirty, true);
      AddedInputs(g0, Abs(), sources, output, deps, builder, alwaysDirty, true);
    }

    // ---- Planning ----

    /** Depth-first marking with an explicit stack. */
    method PlanSubgraph(start: nat)
      requires IdsInRange(nodes) && start < |nodes|
      requires FrontierIn(nodes, InSubgraph(nodes), {})
      modifies this`nodes
      ensures OnlyAdmitted(old(nodes), nodes)
      ensures forall i: nat :: i in InSubgraph(nodes) <==>
          i in old(InSubgraph(nodes)) || (i < |nodes| && Reach(old(nodes), start, i))
      ensures FrontierIn(old(nodes), InSubgraph(nodes), {})
    {
      hide Reach, FrontierIn;
      ghost var g := nodes;
      ghost var before := InSubgraph(g);
      var stack: seq<nat> := [start];
      ReachSelf(g, start);
      FrontierGrows(g, before, {}, {start});
      assert Elements(stack) == {start};
      while stack != []
        invariant OnlyAdmitted(g, nodes)
        invariant before <= InSubgraph(nodes)
        invariant forall x: nat | x in stack :: x < |g| && Reach(g, start, x)
        invariant forall x: nat | x in InSubgraph(nodes) :: x in before || Reach(g, start, x)
        invariant start in InSubgraph(nodes) || start in stack
        invariant FrontierIn(g, InSubgraph(nodes), Elements(stack))
        decreases OutOfSubgraph(nodes), |stack|
      {
        var id := stack[|stack| - 1];
        ghost var was := stack;
        assert id in was && id < |g| && Reach(g, start, id);
        stack := stack[..|stack| - 1];
        assert Elements(was) == Elements(stack) + {id};
        if nodes[id].marks.inSubgraph {
          FrontierDrops(g, InSubgraph(nodes), Elements(stack), id);
          continue;
        }
        ghost var marked := InSubgraph(nodes);
        label L:
        nodes := Admit(nodes, id);
        assert InSubgraph(nodes) == marked + {id};
        assert id in old@L(OutOfSubgraph(nodes)) && id !in OutOfSubgraph(nodes);
        stack := PushInputs(id, stack);
        FrontierStep(g, marked, Elements(was), id, Elements(stack));
        forall x | x in g[id].waitsOn
          ensures Reach(g, start, x)
        {
          ReachSelf(g, x);
          ReachVia(g, id, x, x);
          ReachTrans(g, start, id, x);
        }
      }
      assert Elements(stack) == {};
      forall i: nat | i < |g| && Reach(g, start, i)
        ensures i in InSubgraph(nodes)
      {
        ClosedContainsReached(g, InSubgraph(nodes), start, i);
      }
    }

    /** The inner loop of `plan_subgraph`: stack the inputs that are not marked yet. */
    method PushInputs(id: nat, stack: seq<nat>) returns (r: seq<nat>)
      requires IdsInRange(nodes) && id < |nodes|
      ensures forall x | x in r :: x in stack || x in nodes[id].waitsOn
      ensures forall x | x in stack :: x in r
      ensures forall x | x in nodes[id].waitsOn :: x in InSubgraph(nodes) || x in r
    {
      r := stack;
      var i := 0;
      while i < |nodes[id].waitsOn|
        invariant i <= |nodes[id].waitsOn|
        invariant forall x | x in r :: x in stack || x in nodes[id].waitsOn
        invariant forall x | x in stack :: x in r
        invariant forall k | 0 <= k < i :: nodes[id].waitsOn[k] in InSubgraph(nodes) || nodes[id].waitsOn[k] in r
      {
        if !nodes[nodes[id].waitsOn[i]].marks.inSubgraph {
          r := r + [nodes[id].waitsOn[i]];
        }
        i := i + 1;
      }
    }

    /** The file checks at the end of `eval_node_dirty`. */
    method CheckFiles(fs: Times, n: Decl) returns (stale: bool)
      ensures stale == OutOfDate(fs, n)
      ensures stale <==>
                || n.output == "" || n.output !in fs
                || exists p | p in n.sources + n.deps ::
                     || p == "" || p !in fs || fs[p].sec > fs[n.output].sec
                     || (fs[p].sec == fs[n.output].sec && fs[p].nsec > fs[n.output].nsec)
    {
      StaleInNumbers(fs, n);
      if Stat(fs, n.output).None? { return true; }
      var out := Stat(fs, n.output).value;
      for i := 0 to |n.sources|
        invariant forall k | 0 <= k < i :: !InputStale(fs, out, n.sources[k])
      {
        if InputStale(fs, out, n.sources[i]) { return true; }
      }
      for i := 0 to |n.deps|
        invariant forall k | 0 <= k < i :: !InputStale(fs, out, n.deps[k])
      {
        if InputStale(fs, out, n.deps[i]) { return true; }
      }
      return false;
    }

    /** Memoised dirty evaluation.  A node that is being evaluated already answers with its
        unfinished mark, so the answer can only be trusted to be complete on acyclic graphs;
        what is marked dirty is dirty on every graph. */
    method EvalNodeDirty(ghost g: seq<Node>, fs: Times, id: nat) returns (dirty: bool)
      requires IdsInRange(g) && SameStructure(g, nodes) && id < |nodes|
      requires Sound(g, fs, nodes)
      modifies this`nodes
      ensures Evaluated(g, fs, old(nodes), nodes, id)
      ensures dirty == nodes[id].marks.isDirty
      ensures |old(nodes)| == |nodes| && GroundedSince(fs, old(nodes), nodes, None)
      decreases Unvisited(nodes)
    {
      hide EvalLoop, Evaluated, Sound, IdsInRange, OutOfDate, GroundLoop, GroundedSince;
      if nodes[id].marks.evalVisited {
        AlreadyEvaluated(g, fs, nodes, id);
        NothingNew(fs, nodes);
        return nodes[id].marks.isDirty;
      }
      ghost var was := nodes;
      EvalStarts(g, fs, was, id);
      GroundStarts(fs, was, id);
      nodes := SetEval(nodes, id, false);
      dirty := nodes[id].decl.alwaysDirty;
      var ins := nodes[id].waitsOn;
      var i := 0;
      while i < |ins|
        invariant i <= |ins| && |nodes| == |g|
        invariant EvalLoop(g, fs, was, nodes, id, i, dirty) && GroundLoop(fs, was, nodes, id, dirty)
      {
        ghost var mid := nodes;
        EvalLoopInput(g, fs, was, mid, id, i, dirty);
        var r := EvalNodeDirty(g, fs, ins[i]);
        EvalLoopStep(g, fs, was, mid, nodes, id, i, dirty, r);
        EvalGround(g, fs, was, mid, nodes, id, i, dirty);
        if r { dirty := true; }
        i := i + 1;
      }
      EvalEnds(g, fs, was, nodes, id, i, dirty);
      EvalUnmarked(g, fs, was, nodes, id, i, dirty);
      GroundEnds(fs, was, nodes, id, dirty);
      if !dirty && !nodes[id].decl.phony {
        dirty := CheckFiles(fs, nodes[id].decl);
      }
      nodes := SetEval(nodes, id, dirty);
    }

    // ---- zmm_bg_prepare, loop by loop ----

    method ResetMarks()
      modifies this`nodes
      ensures SameStructure(old(nodes), nodes) && Cleared(nodes, |nodes|)
    {
      var i := 0;
      while i < |nodes|
        invariant i <= |nodes|
        invariant SameStructure(old(nodes), nodes) && Cleared(nodes, i)
      {
        nodes := nodes[i := nodes[i].(marks := NoMarks)];
        i := i + 1;
      }
    }

    method MarkTargets(targets: seq<Path>) returns (found: bool)
      requires Abs().Valid() && Cleared(nodes, |nodes|)
      modifies this`nodes
      ensures OnlyAdmitted(old(nodes), nodes)
      ensures found <==> forall t | t in targets :: t in index
      ensures found ==> MarkedFrom(old(nodes), InSubgraph(nodes), Roots(index, targets))
      ensures found ==> FrontierIn(old(nodes), InSubgraph(nodes), {})
    {
      hide WellFormed, Reach, FrontierIn;
      ghost var g := nodes;
      NothingMarked(g);
      WellFormedIds(g);
      var i := 0;
      while i < |targets|
        invariant i <= |targets|
        invariant OnlyAdmitted(g, nodes)
        invariant forall t | t in targets[..i] :: t in index
        invariant MarkedFrom(g, InSubgraph(nodes), Roots(index, targets[..i]))
        invariant FrontierIn(g, InSubgraph(nodes), {})
      {
        if targets[i] !in index { return false; }
        ghost var mid := nodes;
        AdmittedStructure(g, mid, InSubgraph(mid));
        PlanSubgraph(index[targets[i]]);
        AdmittedAgain(g, mid, nodes, index[targets[i]], InSubgraph(mid), InSubgraph(nodes), Roots(index, targets[..i]));
        assert targets[..i + 1] == targets[..i] + [targets[i]];
        assert Roots(index, targets[..i + 1]) == Roots(index, targets[..i]) + {index[targets[i]]};
        i := i + 1;
      }
      assert targets[..i] == targets;
      return true;
    }

    method EvaluateSubgraph(fs: Times)
      requires IdsInRange(nodes) && FrontierIn(nodes, InSubgraph(nodes), {})
      requires Unevaluated(nodes)
      modifies this`nodes
      ensures SameStructure(old(nodes), nodes) && OnlyEvaluated(old(nodes), nodes)
      ensures forall j: nat | j < |nodes| && nodes[j].marks.isDirty ::
          nodes[j].marks.inSubgraph && Dirty(old(nodes), fs, j)
      ensures Acyclic(old(nodes)) ==>
          forall j: nat | j < |nodes| && nodes[j].marks.inSubgraph :: Right(old(nodes), fs, nodes, j)
      ensures MarksGrounded(nodes, fs)
    {
      hide Reach, FrontierIn, IdsInRange, Dirty, Acyclic, Grounded, GroundedSince;
      ghost var g := nodes;
      var i := 0;
      while i < |nodes|
        invariant i <= |nodes| == |g|
        invariant EvalPass(g, fs, nodes, i) && VisitedGrounded(fs, nodes)
      {
        if nodes[i].marks.inSubgraph {
          ghost var mid := nodes;
          var _ := EvalNodeDirty(g, fs, i);
          GroundTurn(g, fs, mid, nodes, i);
          EvalPassStep(g, fs, mid, nodes, i);
        }
        i := i + 1;
      }
    }

    method CountPending() returns (total: nat)
      requires IdsInRange(nodes)
      requires forall j | 0 <= j < |nodes| :: nodes[j].marks.pendingDeps == 0
      modifies this`nodes
      ensures OnlyCounted(old(nodes), nodes, |nodes|)
      ensures total == |ActiveSet(old(nodes))|
    {
      ghost var g := nodes;
      total := 0;
      var i := 0;
      while i < |nodes|
        invariant i <= |nodes|
        invariant OnlyCounted(g, nodes, i)
        invariant total == |ActiveBelow(g, i)|
      {
        var d := nodes[i].marks.inSubgraph && nodes[i].marks.isDirty;
        ActiveBelowStep(g, i);
        if d {
          total := total + 1;
          var p := CountDirtyInputs(g, i);
          nodes := nodes[i := nodes[i].(marks := nodes[i].marks.(pendingDeps := p))];
        }
        i := i + 1;
      }
      assert ActiveBelow(g, |g|) == ActiveSet(g);
    }

    /** The inner loop: a 32-bit count of the dirty inputs. */
    method CountDirtyInputs(ghost g: seq<Node>, i: nat) returns (p: nat)
      requires IdsInRange(g) && i < |g| && OnlyCounted(g, nodes, i)
      ensures p == DirtyAmong(g, g[i].waitsOn) % U32
    {
      hide OnlyCounted, DirtyAmong;
      p := 0;
      NoneAmong(g);
      assert nodes[i].waitsOn == g[i].waitsOn && |nodes| == |g| by { CountedAgrees(g, nodes, i, i); }
      var ins := nodes[i].waitsOn;
      var j := 0;
      while j < |ins|
        invariant j <= |ins| && p == DirtyAmong(g, ins[..j]) % U32
      {
        DirtyAmongStep(g, ins, j);
        CountedAgrees(g, nodes, i, ins[j]);
        if nodes[ins[j]].marks.isDirty { p := (p + 1) % U32; }
        j := j + 1;
      }
      assert ins[..j] == g[i].waitsOn;
    }

    /** `zmm_bg_prepare`. */
    method Prepare(fs: Times, targets: seq<Path>) returns (code: int)
      requires Abs().Valid()
      modifies this`nodes, this`remainingDirty
      ensures Abs().Valid() && SameStructure(old(nodes), nodes)
      ensures code == if (forall t | t in targets :: t in index) then 0 else -1
      ensures code != 0 ==> remainingDirty == old(remainingDirty)
      ensures code == 0 ==> Prepared(nodes) && remainingDirty == |ActiveSet(nodes)|
      ensures code == 0 ==> SubgraphExact(nodes, Roots(index, targets)) && DirtySound(nodes, fs)
      ensures code == 0 && Acyclic(nodes) ==> MarksExact(nodes, fs, Roots(index, targets))
      ensures code == 0 ==> MarksGrounded(nodes, fs)
    {
      hide Dirty, Reach, Acyclic, IdsInRange, WellFormed, Cleared, Unevaluated, MarkedFrom, FrontierIn, OnlyAdmitted,
           OnlyEvaluated, OnlyCounted, SameStructure, GraphApi.Graph.Indexed, PendingCounted, ClosedSubgraph,
           SubgraphExact, DirtySound, MarksExact, MarksGrounded;
      ghost var start, roots := nodes, Roots(index, targets);
      ResetMarks();
      ghost var reset := nodes;
      StructureKeepsValid(start, reset, index);
      var found := MarkTargets(targets);
      ghost var marked := nodes;
      MarkingLeaves(start, reset, marked, index);
      if !found { return -1; }
      EvaluateSubgraph(fs);
      ghost var evaluated := nodes;
      EvaluationLeaves(start, marked, evaluated, index);
      var total := CountPending();
      CountingLeaves(start, evaluated, nodes, index);
      CountingKeepsGround(fs, evaluated, nodes);
      MarksEnd(reset, marked, evaluated, nodes, fs, roots);
      remainingDirty := total;
      return 0;
    }
  }

  /** A target with a new name and without a file is never taken for up to date: whatever the call to add it lists, and
      whatever the graph was before, planning for it finds something to do. */
  method AddAndPlan(b: BuildGraph, sources: seq<Path>, output: Path, deps: seq<Path>, builder: Option<nat>,
                    alwaysDirty: bool, fs: Times)
    returns (code: int)
    requires b.Abs().Valid() && output !in b.index && output !in fs
    modifies b
    ensures b.Abs().Valid() && code == 0 && b.remainingDirty >= 1
    ensures output in b.index && b.index[output] in ActiveSet(b.nodes)
  {
    hide WellFormed, GraphApi.Graph.Indexed, TargetAdded, AddedDecl, Prepared, SubgraphExact, DirtySound, MarksExact,
         MarksGrounded;
    var _ := b.Add(sources, output, deps, builder, alwaysDirty);
    ghost var t, d := b.index[output], b.nodes[b.index[output]].decl;
    ghost var added := b.nodes;
    code := b.Prepare(fs, [output]);
    SameDecl(added, b.nodes, t);
    TargetIsWanted(b.nodes, b.index, output);
    StaleIsActive(b.nodes, fs, t, output);
    SomethingActive(b.nodes, t);
  }

  lemma SameDecl(g: seq<Node>, h: seq<Node>, t: nat)
    requires SameStructure(g, h) && t < |g|
    ensures t < |h| && h[t].decl == g[t].decl
  {
  }

  lemma TargetIsWanted(g: seq<Node>, index: map<Path, nat>, output: Path)
    requires SubgraphExact(g, Roots(index, [output])) && output in index && index[output] < |g|
    ensures g[index[output]].marks.inSubgraph
  {
    hide Reach;
    ReachSelf(g, index[output]);
    assert output in [output] && index[output] in Roots(index, [output]);
  }

  lemma SomethingActive(g: seq<Node>, t: nat)
    requires t in ActiveSet(g)
    ensures |ActiveSet(g)| >= 1
  {
    assert ActiveSet(g) == {t} + (ActiveSet(g) - {t});
  }
}
