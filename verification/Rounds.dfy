/** Many builds in a row: files are edited, the same targets are planned and built again, and so on. */
module Rounds {
  import opened Basics
  import opened Graphs
  import opened GraphApi
  import opened Plans
  import opened Schedulers
  import opened WaitingInvariant
  import opened Worlds
  import opened Rebuild

  /** Some requested target depends on the node, or is it. */
  ghost predicate Wanted(g: seq<Node>, roots: set<nat>, d: nat) {
    exists r <- roots :: Reach(g, r, d)
  }

  /** Every wanted target that makes a file holds what its builder makes of its inputs, if it is there at all. */
  ghost predicate Trusted(g: seq<Node>, roots: set<nat>, f: Builders, fs: Files) {
    forall d: nat | d < |g| && Wanted(g, roots, d) && Produces(g[d].decl) && g[d].decl.output in fs ::
      ContentAt(fs, g[d].decl.output) == Some(Built(f, fs, g[d].decl))
  }

  /** It is the output of some target. */
  ghost predicate IsTarget(g: seq<Node>, p: Path) {
    exists d :: 0 <= d < |g| && g[d].decl.isTarget && g[d].decl.output == p
  }

  /** Between two builds any file may go, and files that no target makes may change; a changed file is later than the
      clock of the build before. */
  ghost predicate Edited(g: seq<Node>, fs: Files, fs': Files, clock: Time) {
    forall p: Path | FileAt(fs, p) != FileAt(fs', p) && p in fs' :: !IsTarget(g, p) && !NotAfter(fs'[p].mtime, clock)
  }

  /** A file that no target makes may get any content with a later time, any file may be removed, and edits add up. */
  lemma EditsAddUp(g: seq<Node>, fs: Files, fs': Files, clock: Time, p: Path, file: File, q: Path)
    requires Edited(g, fs, fs', clock)
    requires forall d | 0 <= d < |g| && g[d].decl.isTarget :: g[d].decl.output != p
    requires file.mtime.sec > clock.sec || (file.mtime.sec == clock.sec && file.mtime.nsec > clock.nsec)
    ensures Edited(g, fs, fs'[p := file], clock) && Edited(g, fs, fs' - {q}, clock) && Edited(g, fs, fs, clock)
  {
    forall r: Path | FileAt(fs, r) != FileAt(fs' - {q}, r) && r in fs' - {q}
      ensures !IsTarget(g, r) && !NotAfter((fs' - {q})[r].mtime, clock)
    {
      assert FileAt(fs, r) != FileAt(fs', r);
    }
    forall r: Path | FileAt(fs, r) != FileAt(fs'[p := file], r) && r in fs'[p := file]
      ensures !IsTarget(g, r) && !NotAfter(fs'[p := file][r].mtime, clock)
    {
      if r != p { assert FileAt(fs, r) != FileAt(fs', r); }
    }
  }

  /** Where none of the outputs is there yet, as in a fresh checkout, there is nothing to distrust. */
  lemma FreshIsTrusted(g: seq<Node>, roots: set<nat>, f: Builders, fs: Files)
    requires forall d | 0 <= d < |g| && Produces(g[d].decl) :: g[d].decl.output !in fs
    ensures Trusted(g, roots, f, fs)
  {
  }

  lemma TrustFollowsStructure(g: seq<Node>, h: seq<Node>, roots: set<nat>, f: Builders, fs: Files)
    requires SameStructure(g, h) && Trusted(g, roots, f, fs)
    ensures Trusted(h, roots, f, fs)
  {
    hide Reach, Built;
    forall d: nat | d < |h| && Wanted(h, roots, d) && Produces(h[d].decl) && h[d].decl.output in fs
      ensures ContentAt(fs, h[d].decl.output) == Some(Built(f, fs, h[d].decl))
    {
      var r :| r in roots && Reach(h, r, d);
      StructureKeepsReach(g, h, r, d);
      assert Wanted(g, roots, d) && g[d].decl == h[d].decl;
    }
  }

  // ---- From one build to the next ----

  /** Every node of the subgraph holds its from-scratch content. */
  ghost predicate Delivered(g: Graph, f: Builders, rank: seq<nat>, fs0: Files, fs: Files)
    requires InputsRanked(g, rank)
  {
    forall d: nat | d < |g.nodes| && g.nodes[d].marks.inSubgraph ::
      ContentAt(fs, g.nodes[d].decl.output) == Full(g, f, fs0, rank, d)
  }

  /** Then every target is built from what is there now. */
  lemma DeliveryEarnsTrust(g: Graph, f: Builders, rank: seq<nat>, fs0: Files, fs: Files, roots: set<nat>)
    requires Setting(g, rank) && InputsRanked(g, rank) && SubgraphExact(g.nodes, roots)
    requires Delivered(g, f, rank, fs0, fs)
    ensures Trusted(g.nodes, roots, f, fs)
  {
    hide Setting, InputsRanked, Delivered, Reach, Built;
    forall d: nat | d < |g.nodes| && Wanted(g.nodes, roots, d) && Produces(g.nodes[d].decl)
      ensures ContentAt(fs, g.nodes[d].decl.output) == Some(Built(f, fs, g.nodes[d].decl))
    {
      TargetIsBuilt(g, f, rank, fs0, fs, d);
    }
  }

  lemma TargetIsBuilt(g: Graph, f: Builders, rank: seq<nat>, fs0: Files, fs: Files, d: nat)
    requires Setting(g, rank) && InputsRanked(g, rank) && Delivered(g, f, rank, fs0, fs)
    requires d < |g.nodes| && g.nodes[d].marks.inSubgraph && Produces(g.nodes[d].decl)
    ensures ContentAt(fs, g.nodes[d].decl.output) == Some(Built(f, fs, g.nodes[d].decl))
  {
    hide Graph.Indexed, Mirrored, EdgesNamePaths, PendingCounted, Built, Ranked, UpwardClosed;
    forall p | p in g.nodes[d].decl.sources + g.nodes[d].decl.deps
      ensures p in g.index && ContentAt(fs, p) == Full(g, f, fs0, rank, g.index[p])
    {
      InputIsWaitedOn(g, d, p);
    }
    BuiltIsFull(g, f, fs0, rank, fs, d);
  }

  /** After edits, what an exact prepare judges clean is still built from what is there now. */
  lemma EditsAreSeen(g: seq<Node>, f: Builders, fs: Files, fs': Files, clock: Time, roots: set<nat>)
    requires Trusted(g, roots, f, fs) && StampedBy(fs, clock) && Edited(g, fs, fs', clock)
    requires MarksExact(g, TimesOf(fs'), roots)
    ensures CleanTargetsBuilt(g, f, fs')
  {
    hide Trusted, StampedBy, Edited, Built, Dirty, Reach;
    forall d: nat | d < |g| && g[d].marks.inSubgraph && !g[d].marks.isDirty && Produces(g[d].decl)
      ensures ContentAt(fs', g[d].decl.output) == Some(Built(f, fs', g[d].decl))
    {
      DirtyUnfolds(g, TimesOf(fs'), d);
      CleanIsUntouched(g, fs, fs', clock, d);
      assert Wanted(g, roots, d);
      TrustedTarget(g, roots, f, fs, fs', d);
    }
  }

  /** A target that is up to date was not edited, nor was any of its inputs. */
  lemma CleanIsUntouched(g: seq<Node>, fs: Files, fs': Files, clock: Time, d: nat)
    requires StampedBy(fs, clock) && Edited(g, fs, fs', clock)
    requires d < |g| && Produces(g[d].decl) && UpToDate(fs', g[d].decl)
    ensures g[d].decl.output in fs' && FileAt(fs, g[d].decl.output) == FileAt(fs', g[d].decl.output)
    ensures forall p | p in g[d].decl.sources + g[d].decl.deps :: FileAt(fs, p) == FileAt(fs', p)
  {
    var decl := g[d].decl;
    UpToDateExists(fs', decl);
    assert IsTarget(g, decl.output);
    forall p | p in decl.sources + decl.deps
      ensures FileAt(fs, p) == FileAt(fs', p)
    {
      InputIsNoNewer(fs', decl, p);
      OrderOfTimes(fs'[p].mtime, fs'[decl.output].mtime, clock);
    }
  }

  lemma InputIsNoNewer(fs: Files, d: Decl, p: Path)
    requires UpToDate(fs, d) && p in d.sources + d.deps
    ensures d.output in fs && p in fs && NotAfter(fs[p].mtime, fs[d.output].mtime)
  {
    var k :| 0 <= k < |d.sources + d.deps| && (d.sources + d.deps)[k] == p;
    if k < |d.sources| { assert d.sources[k] == p; } else { assert d.deps[k - |d.sources|] == p; }
  }

  lemma TrustedTarget(g: seq<Node>, roots: set<nat>, f: Builders, fs: Files, fs': Files, d: nat)
    requires Trusted(g, roots, f, fs) && d < |g| && Wanted(g, roots, d) && Produces(g[d].decl)
    requires g[d].decl.output in fs' && FileAt(fs, g[d].decl.output) == FileAt(fs', g[d].decl.output)
    requires forall p | p in g[d].decl.sources + g[d].decl.deps :: FileAt(fs, p) == FileAt(fs', p)
    ensures ContentAt(fs', g[d].decl.output) == Some(Built(f, fs', g[d].decl))
  {
    var decl := g[d].decl;
    assert forall p | p in decl.sources :: p in decl.sources + decl.deps;
    assert forall p | p in decl.deps :: p in decl.sources + decl.deps;
    SameContents(fs, fs', decl.sources);
    SameContents(fs, fs', decl.deps);
    assert decl.output in fs;
  }

  lemma SameContents(fs: Files, fs': Files, ps: seq<Path>)
    requires forall p | p in ps :: FileAt(fs, p) == FileAt(fs', p)
    ensures ContentsAt(fs, ps) == ContentsAt(fs', ps)
  {
    forall k | 0 <= k < |ps|
      ensures ContentsAt(fs, ps)[k] == ContentsAt(fs', ps)[k]
    {
      assert FileAt(fs, ps[k]) == FileAt(fs', ps[k]);
    }
  }

  // ---- Any number of builds ----

  /** One round: the graph as planned for the edited files, and the run that built it, if anything was dirty. */
  datatype Round = Round(g: Graph, workers: nat, tr: seq<World>, acts: seq<WorldAction>)

  ghost function Before(r: Round): World
    requires |r.tr| == |r.acts| + 1
  {
    r.tr[0]
  }

  ghost function After(r: Round): World
    requires |r.tr| == |r.acts| + 1
  {
    r.tr[|r.acts|]
  }

  /** `zmm_bg_exec` has returned 0: at once if nothing was dirty, else after a clean run. */
  ghost predicate Succeeds(r: Round, f: Builders)
    requires |r.tr| == |r.acts| + 1
  {
    if ActiveSet(r.g.nodes) == {} then r.acts == []
    else && r.workers > 0 && r.tr[0].s == Start(r.g.nodes, r.workers)
         && WorldRun(r.g.nodes, f, r.tr, r.acts) && CleanWorldRun(r.g.nodes, r.tr, r.acts)
         && After(r).s.main == Returned(0)
  }

  /** The same declarations are planned for the same targets after edits that follow `was`, and built. */
  ghost predicate RoundOk(base: Graph, f: Builders, rank: seq<nat>, roots: set<nat>, was: World, r: Round) {
    && |r.tr| == |r.acts| + 1
    && SameStructure(base.nodes, r.g.nodes) && r.g.index == base.index
    && Setting(r.g, rank) && InputsRanked(r.g, rank) && Fits(r.g.nodes)
    && MarksExact(r.g.nodes, TimesOf(Before(r).fs), roots)
    && Edited(r.g.nodes, was.fs, Before(r).fs, was.clock) && StampedBy(Before(r).fs, Before(r).clock)
    && Succeeds(r, f)
  }

  /** What a round leaves for the next one. */
  ghost predicate Ready(base: Graph, f: Builders, roots: set<nat>, w: World) {
    Trusted(base.nodes, roots, f, w.fs) && StampedBy(w.fs, w.clock)
  }

  lemma {:induction false} StampsKept(g: seq<Node>, f: Builders, tr: seq<World>, acts: seq<WorldAction>, k: nat)
    requires WorldRun(g, f, tr, acts) && k <= |acts| && StampedBy(tr[0].fs, tr[0].clock)
    ensures StampedBy(tr[k].fs, tr[k].clock)
    decreases k
  {
    if k > 0 {
      hide WorldStep, StampedBy;
      StampsKept(g, f, tr, acts, k - 1);
      StampsGrow(g, f, tr[k - 1], acts[k - 1], tr[k]);
    }
  }

  /** One round: the build delivers the from-scratch contents, and its result is ready for the next round. */
  lemma RoundDelivers(base: Graph, f: Builders, rank: seq<nat>, roots: set<nat>, was: World, r: Round)
    requires Ready(base, f, roots, was) && RoundOk(base, f, rank, roots, was, r)
    ensures Delivered(r.g, f, rank, Before(r).fs, After(r).fs)
    ensures Ready(base, f, roots, After(r))
  {
    hide Trusted, Edited, StampedBy, Setting, InputsRanked, Fits, Delivered, WorldRun, CleanWorldRun, Start, Dirty,
         Reach, CleanTargetsBuilt, Graph.Valid;
    TrustFollowsStructure(base.nodes, r.g.nodes, roots, f, was.fs);
    EditsAreSeen(r.g.nodes, f, was.fs, Before(r).fs, was.clock, roots);
    RunDelivers(r, f, rank);
    DeliveryEarnsTrust(r.g, f, rank, Before(r).fs, After(r).fs, roots);
    SameStructureBack(base.nodes, r.g.nodes);
    TrustFollowsStructure(r.g.nodes, base.nodes, roots, f, After(r).fs);
  }

  lemma SameStructureBack(g: seq<Node>, h: seq<Node>)
    requires SameStructure(g, h)
    ensures SameStructure(h, g)
  {
  }

  lemma RunDelivers(r: Round, f: Builders, rank: seq<nat>)
    requires |r.tr| == |r.acts| + 1 && Setting(r.g, rank) && InputsRanked(r.g, rank) && Fits(r.g.nodes)
    requires CleanTargetsBuilt(r.g.nodes, f, Before(r).fs) && StampedBy(Before(r).fs, Before(r).clock) && Succeeds(r, f)
    ensures Delivered(r.g, f, rank, Before(r).fs, After(r).fs) && StampedBy(After(r).fs, After(r).clock)
  {
    hide StampedBy, Setting, InputsRanked, Fits, WorldRun, CleanWorldRun, Start, CleanTargetsBuilt, ActiveSet;
    if ActiveSet(r.g.nodes) == {} {
      NothingToDo(r.g, f, rank, Before(r).fs);
    } else {
      IncrementalEqualsFull(r.g, f, rank, r.workers, r.tr, r.acts);
      StampsKept(r.g.nodes, f, r.tr, r.acts, |r.acts|);
    }
  }

  ghost predicate Chain(base: Graph, f: Builders, rank: seq<nat>, roots: set<nat>, was: World, rounds: seq<Round>)
    decreases |rounds|
  {
    rounds != [] ==>
      && RoundOk(base, f, rank, roots, was, rounds[0])
      && Chain(base, f, rank, roots, After(rounds[0]), rounds[1..])
  }

  /** However often files are edited and the targets built again: after every round every node of the subgraph holds
      what a rebuild from scratch of the files of that round would give it. */
  lemma {:induction false} EveryRoundDelivers(base: Graph, f: Builders, rank: seq<nat>, roots: set<nat>, was: World,
                                              rounds: seq<Round>, k: nat)
    requires Ready(base, f, roots, was) && Chain(base, f, rank, roots, was, rounds) && k < |rounds|
    ensures var r := rounds[k];
            |r.tr| == |r.acts| + 1 && InputsRanked(r.g, rank) && Delivered(r.g, f, rank, Before(r).fs, After(r).fs)
    decreases k
  {
    hide Ready, Delivered, InputsRanked, Setting, Fits, MarksExact, Edited, StampedBy, Succeeds;
    RoundDelivers(base, f, rank, roots, was, rounds[0]);
    if k > 0 { EveryRoundDelivers(base, f, rank, roots, After(rounds[0]), rounds[1..], k - 1); }
  }

  /** From a fresh checkout on. */
  lemma FreshCheckoutDelivers(base: Graph, f: Builders, rank: seq<nat>, roots: set<nat>, was: World,
                              rounds: seq<Round>, k: nat)
    requires forall d | 0 <= d < |base.nodes| && Produces(base.nodes[d].decl) ::
      base.nodes[d].decl.output !in was.fs
    requires StampedBy(was.fs, was.clock)
    requires Chain(base, f, rank, roots, was, rounds) && k < |rounds|
    ensures var r := rounds[k];
            |r.tr| == |r.acts| + 1 && InputsRanked(r.g, rank) && Delivered(r.g, f, rank, Before(r).fs, After(r).fs)
  {
    hide Chain, Delivered, InputsRanked, StampedBy;
    FreshIsTrusted(base.nodes, roots, f, was.fs);
    EveryRoundDelivers(base, f, rank, roots, was, rounds, k);
  }
}
