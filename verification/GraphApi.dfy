/** Building the graph: what each call of the `zmm_bg_add` and `zmm_tg_*` family does to the
    node list and the path index, and what every such call keeps. */
module GraphApi {
  import opened Basics
  import opened Graphs

  /** The node vector and `node_map`. */
  datatype Graph = Graph(nodes: seq<Node>, index: map<Path, nat>) {

    /** `node_map` is a bijection between the known paths and the node ids. */
    ghost predicate Indexed() {
      && (forall i {:trigger nodes[i].decl.output} | 0 <= i < |nodes| ::
            nodes[i].decl.output in index && index[nodes[i].decl.output] == i)
      && (forall p {:trigger index[p]} | p in index :: index[p] < |nodes| && nodes[index[p]].decl.output == p)
    }

    ghost predicate Valid() {
      Indexed() && WellFormed(nodes)
    }
  }

  const EmptyGraph := Graph([], map[])

  function FreshDecl(p: Path): Decl {
    Decl(p, [], [], None, false, false, false)
  }

  function FreshNode(p: Path): Node {
    Node(FreshDecl(p), [], [], NoMarks)
  }

  /** `get_or_put_node`: the graph in which `p` has a node. */
  function WithNode(g: Graph, p: Path): Graph {
    if p in g.index then g else Graph(g.nodes + [FreshNode(p)], g.index[p := |g.nodes|])
  }

  /** `add_dependency_edge` between two existing nodes. */
  function AddEdge(g: seq<Node>, t: nat, d: nat): seq<Node>
    requires t < |g| && d < |g|
  {
    var g' := g[d := g[d].(dependents := g[d].dependents + [t])];
    g'[t := g'[t].(waitsOn := g'[t].waitsOn + [d])]
  }

  datatype InputKind = Source | Dep

  function Record(n: Decl, kind: InputKind, p: Path): Decl {
    if kind.Source? then n.(sources := n.sources + [p]) else n.(deps := n.deps + [p])
  }

  /** The graph after one more path is listed as an input of `t`. */
  function List(g: seq<Node>, t: nat, kind: InputKind, p: Path): seq<Node>
    requires t < |g|
  {
    g[t := g[t].(decl := Record(g[t].decl, kind, p))]
  }

  /** One turn of the loop in `zmm_tg_add_src` or `zmm_tg_add_dep`. */
  function AddInput(g: Graph, t: nat, kind: InputKind, p: Path): (r: Graph)
    requires g.Indexed() && t < |g.nodes|
    ensures r.Indexed() && t < |r.nodes|
  {
    var g1 := Graph(List(g.nodes, t, kind, p), g.index);
    var g2 := WithNode(g1, p);
    Graph(AddEdge(g2.nodes, t, g2.index[p]), g2.index)
  }

  lemma FreshNodeKeepsMirror(g: seq<Node>, p: Path)
    requires IdsInRange(g) && Mirrored(g)
    ensures IdsInRange(g + [FreshNode(p)]) && Mirrored(g + [FreshNode(p)])
  {
    var g', n := g + [FreshNode(p)], |g|;
    forall d: nat, t: nat | d <= n && t <= n
      ensures multiset(g'[d].dependents)[t] == multiset(g'[t].waitsOn)[d]
    {
      if d < n && t == n { assert n !in g[d].dependents; }
      if d == n && t < n { assert n !in g[t].waitsOn; }
    }
  }

  lemma FreshNodeKeepsEdges(g: seq<Node>, p: Path)
    requires IdsInRange(g) && EdgesNamePaths(g) && IdsInRange(g + [FreshNode(p)])
    ensures EdgesNamePaths(g + [FreshNode(p)])
  {
    var g', n := g + [FreshNode(p)], |g|;
    forall t | 0 <= t < n
      ensures Outputs(g', g'[t].waitsOn) == Outputs(g, g[t].waitsOn)
    {
    }
    assert Outputs(g', g'[n].waitsOn) == [];
  }

  lemma WithNodeKeepsIndex(g: Graph, p: Path)
    requires g.Indexed()
    ensures WithNode(g, p).Indexed() && p in WithNode(g, p).index
    ensures g.nodes <= WithNode(g, p).nodes
    ensures WithNode(g, p).index[p] < |WithNode(g, p).nodes|
        && WithNode(g, p).nodes[WithNode(g, p).index[p]].decl.output == p
  {
  }

  lemma WithNodeKeepsValid(g: Graph, p: Path)
    requires g.Valid()
    ensures WithNode(g, p).Valid() && p in WithNode(g, p).index
  {
    WithNodeKeepsIndex(g, p);
    if p !in g.index {
      FreshNodeKeepsMirror(g.nodes, p);
      FreshNodeKeepsEdges(g.nodes, p);
    }
  }

  /** The two edge lists after adding the edge from `t` to `d`. */
  ghost predicate EdgeAdded(g: seq<Node>, h: seq<Node>, t: nat, d: nat) {
    && |h| == |g| && t < |g| && d < |g|
    && (forall i | 0 <= i < |h| ::
          h[i].waitsOn == if i == t then g[t].waitsOn + [d] else g[i].waitsOn)
    && (forall i | 0 <= i < |h| ::
          h[i].dependents == if i == d then g[d].dependents + [t] else g[i].dependents)
  }

  /** The names after listing the output of `d` as an input of `t`. */
  ghost predicate InputNamed(g: seq<Node>, h: seq<Node>, t: nat, d: nat) {
    && |h| == |g| && t < |g| && d < |g|
    && (forall i | 0 <= i < |h| :: h[i].decl.output == g[i].decl.output && h[i].decl.isTarget == g[i].decl.isTarget)
    && (forall i | 0 <= i < |h| && i != t :: h[i].decl.sources + h[i].decl.deps == g[i].decl.sources + g[i].decl.deps)
    && multiset(h[t].decl.sources + h[t].decl.deps) ==
        multiset(g[t].decl.sources + g[t].decl.deps) + multiset{g[d].decl.output}
  }

  lemma EdgeAddedKeepsRange(g: seq<Node>, h: seq<Node>, t: nat, d: nat)
    requires IdsInRange(g) && EdgeAdded(g, h, t, d)
    ensures IdsInRange(h)
  {
  }

  lemma EdgeAddedKeepsMirror(g: seq<Node>, h: seq<Node>, t: nat, d: nat)
    requires Mirrored(g) && EdgeAdded(g, h, t, d)
    ensures Mirrored(h)
  {
    forall a: nat, b: nat | a < |h| && b < |h|
      ensures multiset(h[a].dependents)[b] == multiset(h[b].waitsOn)[a]
    {
      assert multiset(g[a].dependents)[b] == multiset(g[b].waitsOn)[a];
    }
  }

  lemma EdgeAddedKeepsEdges(g: seq<Node>, h: seq<Node>, t: nat, d: nat)
    requires IdsInRange(g) && EdgesNamePaths(g) && IdsInRange(h)
    requires EdgeAdded(g, h, t, d) && InputNamed(g, h, t, d) && g[t].decl.isTarget
    ensures EdgesNamePaths(h)
    ensures Outputs(h, h[t].waitsOn) == Outputs(g, g[t].waitsOn) + [g[d].decl.output]
  {
    TargetOutputs(g, h, t, d);
    forall u: nat | u < |h| && u != t
      ensures Outputs(h, h[u].waitsOn) == Outputs(g, g[u].waitsOn) && h[u].waitsOn == g[u].waitsOn
    {
      OtherOutputs(g, h, t, d, u);
    }
    hide Outputs, IdsInRange, EdgeAdded;
  }

  lemma TargetOutputs(g: seq<Node>, h: seq<Node>, t: nat, d: nat)
    requires IdsInRange(g) && IdsInRange(h) && EdgeAdded(g, h, t, d) && InputNamed(g, h, t, d)
    ensures Outputs(h, h[t].waitsOn) == Outputs(g, g[t].waitsOn) + [g[d].decl.output]
  {
  }

  lemma OtherOutputs(g: seq<Node>, h: seq<Node>, t: nat, d: nat, u: nat)
    requires IdsInRange(g) && IdsInRange(h) && EdgeAdded(g, h, t, d) && InputNamed(g, h, t, d) && u < |h| && u != t
    ensures Outputs(h, h[u].waitsOn) == Outputs(g, g[u].waitsOn) && h[u].waitsOn == g[u].waitsOn
  {
  }

  lemma AddEdgeLists(g: seq<Node>, t: nat, kind: InputKind, d: nat)
    requires t < |g| && d < |g|
    ensures EdgeAdded(g, AddEdge(List(g, t, kind, g[d].decl.output), t, d), t, d)
  {
  }

  lemma AddEdgeNames(g: seq<Node>, t: nat, kind: InputKind, d: nat)
    requires t < |g| && d < |g|
    ensures var h := AddEdge(List(g, t, kind, g[d].decl.output), t, d);
            && |h| == |g|
            && h[t].decl == Record(g[t].decl, kind, g[d].decl.output)
            && forall i | 0 <= i < |g| && i != t :: h[i].decl == g[i].decl
  {
  }

  lemma AppendBags(a: seq<Path>, b: seq<Path>, p: Path)
    ensures multiset((a + [p]) + b) == multiset(a + b) + multiset{p}
    ensures multiset(a + (b + [p])) == multiset(a + b) + multiset{p}
  {
  }

  lemma RecordNames(g: seq<Node>, h: seq<Node>, t: nat, kind: InputKind, d: nat)
    requires |h| == |g| && t < |g| && d < |g|
    requires h[t].decl == Record(g[t].decl, kind, g[d].decl.output)
    requires forall i | 0 <= i < |g| && i != t :: h[i].decl == g[i].decl
    ensures InputNamed(g, h, t, d)
  {
    AppendBags(g[t].decl.sources, g[t].decl.deps, g[d].decl.output);
  }

  /** Naming the path first and creating its node afterwards, as the code does, comes to the same. */
  lemma AddInputIs(g: Graph, t: nat, kind: InputKind, p: Path)
    requires g.Indexed() && t < |g.nodes|
    ensures var g' := WithNode(g, p);
            && p in g'.index && g'.index[p] < |g'.nodes| && t < |g'.nodes|
            && AddInput(g, t, kind, p) ==
              Graph(AddEdge(List(g'.nodes, t, kind, p), t, g'.index[p]), g'.index)
  {
    if p !in g.index {
      assert List(g.nodes, t, kind, p) + [FreshNode(p)] == List(g.nodes + [FreshNode(p)], t, kind, p);
    }
  }

  lemma AddInputKeepsValid(g: Graph, t: nat, kind: InputKind, p: Path)
    requires g.Valid() && t < |g.nodes| && g.nodes[t].decl.isTarget
    ensures AddInput(g, t, kind, p).Valid()
  {
    var g', r := WithNode(g, p), AddInput(g, t, kind, p);
    AddInputIs(g, t, kind, p);
    WithNodeKeepsValid(g, p);
    WithNodeKeepsIndex(g, p);
    var d := g'.index[p];
    AddEdgeLists(g'.nodes, t, kind, d);
    AddEdgeNames(g'.nodes, t, kind, d);
    RecordNames(g'.nodes, r.nodes, t, kind, d);
    EdgeAddedKeepsRange(g'.nodes, r.nodes, t, d);
    EdgeAddedKeepsMirror(g'.nodes, r.nodes, t, d);
    EdgeAddedKeepsEdges(g'.nodes, r.nodes, t, d);
  }

  function WithInputs(d: Decl, kind: InputKind, paths: seq<Path>): Decl {
    d.(sources := d.sources + if kind.Source? then paths else [],
       deps := d.deps + if kind.Dep? then paths else [])
  }

  /** What one or several inputs of `t` change: these paths are listed, one edge each, nothing else. */
  ghost predicate InputsAdded(g: seq<Node>, r: seq<Node>, t: nat, kind: InputKind, paths: seq<Path>)
    requires IdsInRange(g) && IdsInRange(r) && t < |g|
  {
    && |g| <= |r|
    && r[t].decl == WithInputs(g[t].decl, kind, paths)
    && Outputs(r, r[t].waitsOn) == Outputs(g, g[t].waitsOn) + paths
    && (forall i | 0 <= i < |g| && i != t :: r[i].decl == g[i].decl && r[i].waitsOn == g[i].waitsOn)
    && (forall i | 0 <= i < |g| :: r[i].marks == g[i].marks)
    && (forall i | |g| <= i < |r| ::
          r[i].decl == FreshDecl(r[i].decl.output) && r[i].waitsOn == [] && r[i].decl.output in paths)
  }

  lemma AddInputEffect(g: Graph, t: nat, kind: InputKind, p: Path)
    requires g.Indexed() && IdsInRange(g.nodes) && t < |g.nodes|
    requires IdsInRange(AddInput(g, t, kind, p).nodes)
    ensures InputsAdded(g.nodes, AddInput(g, t, kind, p).nodes, t, kind, [p])
  {
    hide Graph.Indexed, InputsAdded, Outputs;
    var g', r := WithNode(g, p), AddInput(g, t, kind, p);
    AddInputIs(g, t, kind, p);
    WithNodeKeepsIndex(g, p);
    AddEdgeInputs(g'.nodes, t, kind, g'.index[p]);
    FreshInputs(g.nodes, g'.nodes, r.nodes, t, kind, p);
  }

  lemma FreshInputs(g: seq<Node>, g': seq<Node>, r: seq<Node>, t: nat, kind: InputKind, p: Path)
    requires IdsInRange(g) && IdsInRange(g') && IdsInRange(r) && t < |g|
    requires g <= g' && |r| == |g'| && forall i | |g| <= i < |g'| :: g'[i] == FreshNode(p)
    requires InputsAdded(g', r, t, kind, [p])
    ensures InputsAdded(g, r, t, kind, [p])
  {
    assert Outputs(g', g'[t].waitsOn) == Outputs(g, g[t].waitsOn);
  }

  lemma AddEdgeInputs(g: seq<Node>, t: nat, kind: InputKind, d: nat)
    requires IdsInRange(g) && t < |g| && d < |g|
    requires IdsInRange(AddEdge(List(g, t, kind, g[d].decl.output), t, d))
    ensures InputsAdded(g, AddEdge(List(g, t, kind, g[d].decl.output), t, d), t, kind, [g[d].decl.output])
  {
    var p, h := g[d].decl.output, AddEdge(List(g, t, kind, g[d].decl.output), t, d);
    assert g[t].decl.sources + [] == g[t].decl.sources && g[t].decl.deps + [] == g[t].decl.deps;
    assert h[t].decl == Record(g[t].decl, kind, p);
    assert Outputs(h, h[t].waitsOn) == Outputs(g, g[t].waitsOn) + [p];
  }

  /** Changing the flags or the builder of a node. */
  function Redeclare(g: Graph, t: nat, decl: Decl): Graph
    requires t < |g.nodes|
  {
    g.(nodes := g.nodes[t := g.nodes[t].(decl := decl)])
  }

  lemma RedeclareKeepsEdges(g: seq<Node>, h: seq<Node>, t: nat, decl: Decl)
    requires IdsInRange(g) && EdgesNamePaths(g) && t < |g| && h == g[t := g[t].(decl := decl)]
    requires
      var was := g[t].decl;
      decl.output == was.output && decl.sources == was.sources && decl.deps == was.deps
      && (was.isTarget ==> decl.isTarget)
    ensures IdsInRange(h) && EdgesNamePaths(h)
  {
    assert forall u | 0 <= u < |h| :: h[u].waitsOn == g[u].waitsOn && h[u].dependents == g[u].dependents;
    assert IdsInRange(h);
    assert forall u | 0 <= u < |h| :: h[u].decl.output == g[u].decl.output;
    forall u | 0 <= u < |h|
      ensures Outputs(h, h[u].waitsOn) == Outputs(g, g[u].waitsOn)
    {
    }
  }

  lemma RedeclareKeepsValid(g: Graph, t: nat, decl: Decl)
    requires g.Valid() && t < |g.nodes|
    requires
      var was := g.nodes[t].decl;
      decl.output == was.output && decl.sources == was.sources && decl.deps == was.deps
      && (was.isTarget ==> decl.isTarget)
    ensures Redeclare(g, t, decl).Valid()
  {
    var h := Redeclare(g, t, decl).nodes;
    RedeclareKeepsIndex(g, t, decl);
    RedeclareKeepsEdges(g.nodes, h, t, decl);
    SameEdgesKeepMirror(g.nodes, h);
    hide Mirrored, EdgesNamePaths, IdsInRange, Graph.Indexed;
  }

  lemma RedeclareKeepsIndex(g: Graph, t: nat, decl: Decl)
    requires g.Indexed() && t < |g.nodes| && decl.output == g.nodes[t].decl.output
    ensures Redeclare(g, t, decl).Indexed()
  {
  }

  lemma SameEdgesKeepMirror(g: seq<Node>, h: seq<Node>)
    requires Mirrored(g) && |h| == |g|
    requires forall i | 0 <= i < |g| :: h[i].dependents == g[i].dependents && h[i].waitsOn == g[i].waitsOn
    ensures Mirrored(h)
  {
  }

  /** The paths taken from a list: those before the first empty one, where the call stops. */
  function Taken(paths: seq<Path>): (s: seq<Path>)
    ensures s <= paths && "" !in s
    ensures s != paths ==> paths[|s|] == ""
  {
    if paths == [] || paths[0] == "" then [] else [paths[0]] + Taken(paths[1..])
  }

  lemma TakenStep(paths: seq<Path>, i: nat)
    requires i < |paths| && Taken(paths[..i]) == paths[..i]
    ensures paths[i] == "" ==> Taken(paths) == paths[..i]
    ensures paths[i] != "" ==> Taken(paths[..i + 1]) == paths[..i + 1]
    decreases i
  {
    if i > 0 {
      assert paths[..i][0] == paths[0] && paths[..i][1..] == paths[1..][..i - 1];
      TakenStep(paths[1..], i - 1);
      assert paths[..i + 1][1..] == paths[1..][..i];
    }
  }

  /** One turn of the loop over a list of inputs. */
  lemma AddInputExtends(g: seq<Node>, cur: Graph, t: nat, kind: InputKind, done: seq<Path>, p: Path)
    requires IdsInRange(g) && t < |g| && cur.Indexed() && IdsInRange(cur.nodes)
    requires InputsAdded(g, cur.nodes, t, kind, done)
    requires IdsInRange(AddInput(cur, t, kind, p).nodes)
    ensures InputsAdded(g, AddInput(cur, t, kind, p).nodes, t, kind, done + [p])
  {
    AddInputEffect(cur, t, kind, p);
    InputsCompose(g, cur.nodes, AddInput(cur, t, kind, p).nodes, t, kind, done, [p]);
  }

  lemma AddInputTurn(g: seq<Node>, cur: Graph, t: nat, kind: InputKind, done: seq<Path>, p: Path)
    requires IdsInRange(g) && t < |g| && g[t].decl.isTarget && cur.Valid()
    requires InputsAdded(g, cur.nodes, t, kind, done)
    ensures AddInput(cur, t, kind, p).Valid()
    ensures InputsAdded(g, AddInput(cur, t, kind, p).nodes, t, kind, done + [p])
  {
    AddInputKeepsValid(cur, t, kind, p);
    AddInputExtends(g, cur, t, kind, done, p);
  }

  lemma NoInputsAdded(g: seq<Node>, t: nat, kind: InputKind)
    requires IdsInRange(g) && t < |g|
    ensures InputsAdded(g, g, t, kind, [])
  {
    assert g[t].decl.sources + [] == g[t].decl.sources;
    assert g[t].decl.deps + [] == g[t].decl.deps;
    assert Outputs(g, g[t].waitsOn) + [] == Outputs(g, g[t].waitsOn);
  }

  lemma InputsCompose(a: seq<Node>, b: seq<Node>, c: seq<Node>, t: nat, kind: InputKind, p: seq<Path>, q: seq<Path>)
    requires IdsInRange(a) && IdsInRange(b) && IdsInRange(c) && t < |a|
    requires InputsAdded(a, b, t, kind, p) && InputsAdded(b, c, t, kind, q)
    ensures InputsAdded(a, c, t, kind, p + q)
  {
    var s, d, o := a[t].decl.sources, a[t].decl.deps, Outputs(a, a[t].waitsOn);
    assert (s + p) + q == s + (p + q) && (s + []) + [] == s + [];
    assert (d + p) + q == d + (p + q) && (d + []) + [] == d + [];
    assert (o + p) + q == o + (p + q);
  }

  lemma {:induction false} TakenAll(paths: seq<Path>)
    ensures Taken(paths) == paths <==> "" !in paths
    decreases |paths|
  {
    if paths != [] && paths[0] != "" {
      TakenAll(paths[1..]);
      assert paths == [paths[0]] + paths[1..];
    }
  }

  // ---- A whole zmm_bg_add ----

  /** What is known about a path before the call. */
  function DeclOf(g: Graph, p: Path): Decl
    requires forall q | q in g.index :: g.index[q] < |g.nodes|
  {
    if p in g.index then g.nodes[g.index[p]].decl else FreshDecl(p)
  }

  /** What is listed for a path. */
  function SourcesOf(g: Graph, p: Path): seq<Path>
    requires g.Indexed()
  {
    if p in g.index then g.nodes[g.index[p]].decl.sources else []
  }

  function DepsOf(g: Graph, p: Path): seq<Path>
    requires g.Indexed()
  {
    if p in g.index then g.nodes[g.index[p]].decl.deps else []
  }

  /** Index `k` is that of the first empty path. */
  predicate FirstEmpty(paths: seq<Path>, k: nat) {
    k < |paths| && paths[k] == "" && "" !in paths[..k]
  }

  /** The declaration that `zmm_bg_add` leaves at `output`: inputs accumulate over repeated calls,
      the builder is replaced, and nothing after the first empty path is recorded. */
  ghost function AddedDecl(g: Graph, sources: seq<Path>, output: Path, deps: seq<Path>, builder: Option<nat>,
                           alwaysDirty: bool): (d: Decl)
    requires g.Indexed()
  {
    var was := DeclOf(g, output);
    was.(isTarget := true, builder := builder, alwaysDirty := was.alwaysDirty || alwaysDirty,
         sources := was.sources + Taken(sources),
         deps := was.deps + if "" in sources then [] else Taken(deps))
  }

  /** The path is one of the node's inputs. */
  predicate Lists(d: Decl, p: Path) {
    p in d.sources || p in d.deps
  }

  /** From `g` to `h`, the node of `output` has become `decl`, no other known node changed its declaration or its
      inputs, and the nodes that are new stand for inputs of `output` and know nothing yet. */
  ghost predicate TargetAdded(g: Graph, h: Graph, output: Path, decl: Decl) {
    && |g.nodes| <= |h.nodes|
    && output in h.index && h.index[output] < |h.nodes|
    && (output in g.index ==> h.index[output] == g.index[output])
    && h.nodes[h.index[output]].decl == decl
    && (forall i | 0 <= i < |g.nodes| && i != h.index[output] ::
          h.nodes[i].decl == g.nodes[i].decl && h.nodes[i].waitsOn == g.nodes[i].waitsOn)
    && NewNodesAreInputs(h.nodes, |g.nodes|, h.index[output], decl)
  }

  ghost predicate NewNodesAreInputs(nodes: seq<Node>, from: nat, t: nat, decl: Decl) {
    forall i | from <= i < |nodes| && i != t ::
      nodes[i].decl == FreshDecl(nodes[i].decl.output) && nodes[i].waitsOn == [] && Lists(decl, nodes[i].decl.output)
  }

  lemma InitAddsTarget(g: Graph, h: Graph, t: nat, output: Path, builder: Option<nat>)
    requires g.Indexed() && WithNode(g, output).Indexed() && t == WithNode(g, output).index[output]
    requires var w := WithNode(g, output);
             h == Redeclare(w, t, w.nodes[t].decl.(isTarget := true, builder := builder))
    ensures TargetAdded(g, h, output, DeclOf(g, output).(isTarget := true, builder := builder))
    ensures output in h.index && h.index[output] == t < |h.nodes|
    ensures h.nodes[t].decl == DeclOf(g, output).(isTarget := true, builder := builder)
    ensures h.nodes[t].decl.output == output
  {
  }

  /** A later step of the same call, which touches the declaration and the inputs of `t` only. */
  lemma TargetStep(g: Graph, h: Graph, k: Graph, t: nat, output: Path, decl: Decl, decl': Decl)
    requires TargetAdded(g, h, output, decl) && h.index[output] == t
    requires |h.nodes| <= |k.nodes| && k.Indexed()
    requires k.nodes[t].decl == decl' && decl'.output == output
    requires forall i | 0 <= i < |h.nodes| && i != t ::
      k.nodes[i].decl == h.nodes[i].decl && k.nodes[i].waitsOn == h.nodes[i].waitsOn
    requires NewNodesAreInputs(k.nodes, |h.nodes|, t, decl')
    requires forall p | Lists(decl, p) :: Lists(decl', p)
    ensures TargetAdded(g, k, output, decl') && k.index[output] == t
  {
  }

  lemma FlagAddsTarget(g: Graph, h: Graph, k: Graph, t: nat, output: Path, decl: Decl, alwaysDirty: bool)
    requires TargetAdded(g, h, output, decl) && h.index[output] == t && decl.output == output
    requires k.Indexed()
    requires k == if alwaysDirty then Redeclare(h, t, decl.(alwaysDirty := true)) else h
    ensures TargetAdded(g, k, output, decl.(alwaysDirty := decl.alwaysDirty || alwaysDirty)) && k.index[output] == t
  {
    hide Graph.Indexed;
    TargetStep(g, h, k, t, output, decl, decl.(alwaysDirty := decl.alwaysDirty || alwaysDirty));
  }

  lemma InputsAddTarget(g: Graph, h: Graph, k: Graph, t: nat, output: Path, decl: Decl, kind: InputKind,
          paths: seq<Path>)
    requires TargetAdded(g, h, output, decl) && h.index[output] == t && decl.output == output
    requires WellFormed(h.nodes) && k.Valid()
    requires IdsInRange(h.nodes) && IdsInRange(k.nodes) && InputsAdded(h.nodes, k.nodes, t, kind, paths)
    ensures TargetAdded(g, k, output, WithInputs(decl, kind, paths))
    ensures k.index[output] == t < |k.nodes| && k.nodes[t].decl == WithInputs(decl, kind, paths)
  {
    hide Graph.Indexed, WellFormed, IdsInRange, Outputs;
    TargetStep(g, h, k, t, output, decl, k.nodes[t].decl);
  }

  /** The same field by field, for a path that was known and for one that was not. */
  lemma AddedInFull(g: Graph, h: Graph, sources: seq<Path>, output: Path, deps: seq<Path>, builder: Option<nat>,
                    alwaysDirty: bool, phony: bool)
    requires g.Indexed() && h.Indexed()
    requires
      var d := AddedDecl(g, sources, output, deps, builder, alwaysDirty);
      TargetAdded(g, h, output, if phony then d.(phony := true) else d)
    ensures output in h.index && h.index[output] < |h.nodes|
    ensures
      var d := h.nodes[h.index[output]].decl;
      && d.output == output && d.isTarget && d.builder == builder
      && d.phony == (phony || (output in g.index && g.nodes[g.index[output]].decl.phony))
      && d.alwaysDirty == (alwaysDirty || (output in g.index && g.nodes[g.index[output]].decl.alwaysDirty))
    ensures forall i | |g.nodes| <= i < |h.nodes| && i != h.index[output] ::
      var d := h.nodes[i].decl;
      && (d.output in h.nodes[h.index[output]].decl.sources || d.output in h.nodes[h.index[output]].decl.deps)
      && !d.isTarget && !d.phony && !d.alwaysDirty && d.builder.None? && d.sources == d.deps == []
  {
  }

  /** And the inputs: all that are given, or those before the first empty path. */
  lemma AddedInputs(g: Graph, h: Graph, sources: seq<Path>, output: Path, deps: seq<Path>, builder: Option<nat>,
                    alwaysDirty: bool, phony: bool)
    requires g.Indexed() && h.Indexed()
    requires
      var d := AddedDecl(g, sources, output, deps, builder, alwaysDirty);
      TargetAdded(g, h, output, if phony then d.(phony := true) else d)
    ensures output in h.index && h.index[output] < |h.nodes|
    ensures
      var d, s0, d0 := h.nodes[h.index[output]].decl, SourcesOf(g, output), DepsOf(g, output);
      && ("" !in sources && "" !in deps ==> d.sources == s0 + sources && d.deps == d0 + deps)
      && (forall k: nat | FirstEmpty(sources, k) :: d.sources == s0 + sources[..k] && d.deps == d0)
      && (forall k: nat | "" !in sources && FirstEmpty(deps, k) ::
            d.sources == s0 + sources && d.deps == d0 + deps[..k])
  {
    TakenAll(sources);
    TakenAll(deps);
    forall k: nat | FirstEmpty(sources, k) ensures Taken(sources) == sources[..k] && "" in sources {
      TakenUpTo(sources, k);
    }
    forall k: nat | FirstEmpty(deps, k) ensures Taken(deps) == deps[..k] {
      TakenUpTo(deps, k);
    }
    hide Taken, NewNodesAreInputs;
    assert DepsOf(g, output) + [] == DepsOf(g, output);
  }

  lemma TakenUpTo(paths: seq<Path>, k: nat)
    requires FirstEmpty(paths, k)
    ensures Taken(paths) == paths[..k] && "" in paths
  {
    var n := |Taken(paths)|;
    assert n != |paths| ==> paths[n] == "";
    assert forall i: nat | i < n :: Taken(paths)[i] == paths[i] && Taken(paths)[i] in Taken(paths);
    assert forall i: nat | i < k :: paths[..k][i] == paths[i] && paths[..k][i] in paths[..k];
  }

  /** The last step of `zmm_bg_add_phony`. */
  lemma PhonyAdded(g: Graph, h: Graph, k: Graph, output: Path, decl: Decl)
    requires TargetAdded(g, h, output, decl) && h.Indexed()
    requires k == Redeclare(h, h.index[output], h.nodes[h.index[output]].decl.(phony := true))
    ensures TargetAdded(g, k, output, decl.(phony := true))
  {
  }

  lemma AddedDeclSteps(g: Graph, sources: seq<Path>, output: Path, deps: seq<Path>, builder: Option<nat>,
                       alwaysDirty: bool)
    requires g.Indexed()
    ensures
      var was := DeclOf(g, output).(isTarget := true, builder := builder);
      var d := WithInputs(was.(alwaysDirty := was.alwaysDirty || alwaysDirty), Source, Taken(sources));
      var added := AddedDecl(g, sources, output, deps, builder, alwaysDirty);
      && ("" in sources || deps == [] ==> d == added)
      && ("" !in sources ==> WithInputs(d, Dep, Taken(deps)) == added)
  {
    var was := DeclOf(g, output);
    assert was.deps + [] == was.deps && (was.sources + Taken(sources)) + [] == was.sources + Taken(sources);
  }
}
