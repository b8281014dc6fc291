/** The worker pool together with the file system: what builders read and write, and what a rebuild
    from scratch would produce. */
module Worlds {
  import opened Basics
  import opened Graphs
  import opened GraphApi
  import opened Schedulers

  type Content = string

  datatype File = File(mtime: Time, content: Content)

  type Files = map<Path, File>

  /** A builder function: from its identity, the contents of its sources and of its other
      dependencies and the name of its output to the content it produces. */
  type Builders = (nat, seq<Option<Content>>, seq<Option<Content>>, Path) -> Content

  function TimesOf(fs: Files): Times {
    map p | p in fs :: fs[p].mtime
  }

  function ContentAt(fs: Files, p: Path): Option<Content> {
    if p in fs then Some(fs[p].content) else None
  }

  function FileAt(fs: Files, p: Path): Option<File> {
    if p in fs then Some(fs[p]) else None
  }

  function ContentsAt(fs: Files, ps: seq<Path>): (r: seq<Option<Content>>)
    ensures |r| == |ps| && forall k | 0 <= k < |ps| :: r[k] == ContentAt(fs, ps[k])
    decreases |ps|
  {
    if ps == [] then [] else ContentsAt(fs, ps[..|ps| - 1]) + [ContentAt(fs, ps[|ps| - 1])]
  }

  /** A target whose builder produces a file.  Phony targets run their builder for other reasons. */
  predicate Produces(d: Decl) {
    d.isTarget && d.builder.Some? && !d.phony
  }

  function Built(f: Builders, fs: Files, d: Decl): Content
    requires Produces(d)
  {
    f(d.builder.value, ContentsAt(fs, d.sources), ContentsAt(fs, d.deps), d.output)
  }

  // ---- Time ----

  predicate NotAfter(a: Time, b: Time) {
    a.sec < b.sec || (a.sec == b.sec && a.nsec <= b.nsec)
  }

  // ---- Steps of the world ----

  datatype World = World(s: State, fs: Files, clock: Time)

  datatype WorldAction =
    | Sched(a: Action)
    | Scribble(w: nat)   // a running builder writes something into its output

  /** The only file that may differ is `p`, and it is not stamped later than `clock`. */
  ghost predicate OnlyWrites(fs: Files, fs': Files, p: Path, clock: Time) {
    && (forall q: Path | q != p :: (q in fs <==> q in fs') && (q in fs ==> fs'[q] == fs[q]))
    && (p in fs' ==> NotAfter(fs'[p].mtime, clock))
  }

  /** What a step does to the files: a builder that succeeds leaves its product in its output, stamped
      with the current time; a running or failing one may leave anything there. */
  ghost predicate FileStep(g: seq<Node>, f: Builders, w: World, a: WorldAction, w': World) {
    match a
    case Scribble(v) =>
      && v < |w.s.workers| && w.s.workers[v].Running? && w.s.workers[v].node < |g|
      && Produces(g[w.s.workers[v].node].decl)
      && OnlyWrites(w.fs, w'.fs, g[w.s.workers[v].node].decl.output, w'.clock)
    case Sched(Succeed(v)) =>
      v < |w.s.workers| && w.s.workers[v].Running? && w.s.workers[v].node < |g| &&
      var d := g[w.s.workers[v].node].decl;
      w'.fs == if Produces(d) then w.fs[d.output := File(w'.clock, Built(f, w.fs, d))] else w.fs
    case Sched(Fail(v)) =>
      v < |w.s.workers| && w.s.workers[v].Running? && w.s.workers[v].node < |g| &&
      var d := g[w.s.workers[v].node].decl;
      if Produces(d) then OnlyWrites(w.fs, w'.fs, d.output, w'.clock) else w'.fs == w.fs
    case Sched(_) => w'.fs == w.fs
  }

  ghost predicate WorldStep(g: seq<Node>, f: Builders, w: World, a: WorldAction, w': World) {
    && InRange(g, w.s)
    && NotAfter(w.clock, w'.clock)
    && (match a
        case Sched(b) => Enabled(g, w.s, b) && w'.s == Apply(g, w.s, b)
        case Scribble(_) => w'.s == w.s)
    && FileStep(g, f, w, a, w')
  }

  /** A run: `tr` lists the worlds, `acts` the steps between them. */
  ghost predicate WorldRun(g: seq<Node>, f: Builders, tr: seq<World>, acts: seq<WorldAction>) {
    && |tr| == |acts| + 1
    && forall i | 0 <= i < |acts| :: WorldStep(g, f, tr[i], acts[i], tr[i + 1])
  }

  /** Time does not run backwards, in seconds or, within a second, in nanoseconds. */
  lemma {:induction false} ClockRises(g: seq<Node>, f: Builders, tr: seq<World>, acts: seq<WorldAction>, i: nat, j: nat)
    requires WorldRun(g, f, tr, acts) && i <= j < |tr|
    ensures tr[i].clock.sec <= tr[j].clock.sec
    ensures tr[i].clock.sec == tr[j].clock.sec ==> tr[i].clock.nsec <= tr[j].clock.nsec
    decreases j
  {
    hide FileStep, InRange, Enabled, Apply;
    if i < j {
      ClockRises(g, f, tr, acts, i, j - 1);
      assert WorldStep(g, f, tr[j - 1], acts[j - 1], tr[j - 1 + 1]);
    }
  }

  /** While a builder that makes a file runs, its output may at any moment be any file at all that is not stamped later
      than the clock, or no file; and so it may be left behind by a builder that fails. */
  lemma AnythingMayBeWritten(g: seq<Node>, f: Builders, w: World, v: nat, file: Option<File>)
    returns (a: WorldAction, w': World)
    requires InRange(g, w.s) && v < |w.s.workers| && w.s.workers[v].Running?
    requires var d := g[w.s.workers[v].node].decl; d.isTarget && d.builder.Some? && !d.phony
    requires file.Some? ==>
      var t := file.value.mtime; t.sec < w.clock.sec || (t.sec == w.clock.sec && t.nsec <= w.clock.nsec)
    ensures WorldStep(g, f, w, a, w') && w'.s == w.s && w'.clock == w.clock
    ensures WorldStep(g, f, w, Sched(Fail(v)), w'.(s := Apply(g, w.s, Fail(v))))
    ensures var p := g[w.s.workers[v].node].decl.output;
            && (p in w'.fs <==> file.Some?) && (file.Some? ==> w'.fs[p] == file.value)
            && forall q | q != p :: (q in w'.fs <==> q in w.fs) && (q in w.fs ==> w'.fs[q] == w.fs[q])
  {
    hide InRange, Apply;
    assert w.s.workers[v].node < |g| && Enabled(g, w.s, Fail(v)) by { NodeInRange(g, w.s, v); }
    var p := g[w.s.workers[v].node].decl.output;
    a, w' := Scribble(v), w.(fs := if file.Some? then w.fs[p := file.value] else w.fs - {p});
  }

  /** A builder that succeeds leaves what it makes of the contents of its sources and of its other dependencies, a
      missing one included, stamped with the time of the step; nothing else changes. */
  lemma SuccessWritesProduct(g: seq<Node>, f: Builders, w: World, v: nat, w': World,
                             sources: seq<Option<Content>>, deps: seq<Option<Content>>)
    requires WorldStep(g, f, w, Sched(Succeed(v)), w') && v < |w.s.workers| && w.s.workers[v].Running?
    requires w.s.workers[v].node < |g|
    requires var d := g[w.s.workers[v].node].decl;
             && d.isTarget && d.builder.Some? && !d.phony
             && |sources| == |d.sources| && |deps| == |d.deps|
             && (forall k | 0 <= k < |d.sources| ::
                   sources[k] == if d.sources[k] in w.fs then Some(w.fs[d.sources[k]].content) else None)
             && (forall k | 0 <= k < |d.deps| ::
                   deps[k] == if d.deps[k] in w.fs then Some(w.fs[d.deps[k]].content) else None)
    ensures var d := g[w.s.workers[v].node].decl;
            w'.fs == w.fs[d.output := File(w'.clock, f(d.builder.value, sources, deps, d.output))]
  {
    hide InRange, Apply, ContentsAt;
    var d := g[w.s.workers[v].node].decl;
    assert sources == ContentsAt(w.fs, d.sources) && deps == ContentsAt(w.fs, d.deps);
  }

  lemma NodeInRange(g: seq<Node>, s: State, v: nat)
    requires InRange(g, s) && v < |s.workers| && s.workers[v].Running?
    ensures s.workers[v].node < |g|
  {
  }

  // ---- A rebuild from scratch ----

  /** The inputs of every node are known and rank below it. */
  ghost predicate InputsRanked(g: Graph, rank: seq<nat>) {
    && |rank| == |g.nodes|
    && (forall p | p in g.index :: g.index[p] < |g.nodes|)
    && forall d, p | 0 <= d < |g.nodes| && p in g.nodes[d].decl.sources + g.nodes[d].decl.deps ::
         p in g.index && rank[g.index[p]] < rank[d]
  }

  /** What node `d` holds if every producing target below it is built anew, inputs first. */
  ghost function Full(g: Graph, f: Builders, fs: Files, rank: seq<nat>, d: nat): Option<Content>
    requires InputsRanked(g, rank) && d < |g.nodes|
    decreases rank[d], 1, 0
  {
    var decl := g.nodes[d].decl;
    if Produces(decl) then
      Some(f(decl.builder.value, FullAll(g, f, fs, rank, decl.sources, rank[d]),
             FullAll(g, f, fs, rank, decl.deps, rank[d]), decl.output))
    else ContentAt(fs, decl.output)
  }

  ghost function FullAll(g: Graph, f: Builders, fs: Files, rank: seq<nat>, ps: seq<Path>,
          bound: nat): (r: seq<Option<Content>>)
    requires InputsRanked(g, rank)
    requires forall p | p in ps :: p in g.index && rank[g.index[p]] < bound
    ensures |r| == |ps|
    ensures forall k | 0 <= k < |ps| :: r[k] == Full(g, f, fs, rank, g.index[ps[k]])
    decreases bound, 0, |ps|
  {
    if ps == [] then []
    else
      var p := ps[|ps| - 1];
      FullAll(g, f, fs, rank, ps[..|ps| - 1], bound) + [Full(g, f, fs, rank, g.index[p])]
  }

  /** The sources and dependencies of a node are the outputs of the nodes it waits on. */
  lemma InputIsWaitedOn(g: Graph, d: nat, p: Path)
    requires g.Valid() && d < |g.nodes| && p in g.nodes[d].decl.sources + g.nodes[d].decl.deps
    ensures p in g.index && g.index[p] < |g.nodes| && g.index[p] in g.nodes[d].waitsOn
    ensures g.nodes[g.index[p]].decl.output == p
  {
    hide Mirrored;
    var outs := Outputs(g.nodes, g.nodes[d].waitsOn);
    assert p in multiset(g.nodes[d].decl.sources + g.nodes[d].decl.deps);
    assert p in multiset(outs);
    var k :| 0 <= k < |outs| && outs[k] == p;
    assert g.nodes[g.nodes[d].waitsOn[k]].decl.output == p;
  }

  lemma RankedInputs(g: Graph, rank: seq<nat>)
    requires g.Valid() && Ranked(g.nodes, rank)
    ensures InputsRanked(g, rank)
  {
    hide WellFormed;
    forall d: nat, p | d < |g.nodes| && p in g.nodes[d].decl.sources + g.nodes[d].decl.deps
      ensures p in g.index && rank[g.index[p]] < rank[d]
    {
      InputIsWaitedOn(g, d, p);
    }
  }
}
