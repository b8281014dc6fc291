/** Every step of a clean run keeps the core invariant. */
module Steps {
  import opened Basics
  import opened Graphs
  import opened Plans
  import opened TaskQueues
  import opened Schedulers
  import opened Ownership
  import opened CoreInvariant

  /** The seed scan does not read a zero that a worker has produced. */
  ghost predicate Clean(g: seq<Node>, s: State, a: Action) {
    a.Seed? && s.main.Seeding? && s.main.i < |g| == |s.pending| && Active(g, s.main.i) && s.pending[s.main.i] == 0
    ==> g[s.main.i].marks.pendingDeps == 0
  }

  lemma PopEffect(g: seq<Node>, s: State, w: nat)
    requires InRange(g, s) && Enabled(g, s, Pop(w))
    ensures var t := Apply(g, s, Pop(w));
            && t.remaining == s.remaining
            && if s.ring.count == 0 then Quiet(g, s, t) else Takes(g, s, t, w, s.ring.Front())
  {
    StepKeepsRange(g, s, Pop(w));
  }

  lemma PopKeepsCore(g: seq<Node>, s: State, w: nat)
    requires Core(g, s) && Enabled(g, s, Pop(w))
    ensures Core(g, Apply(g, s, Pop(w)))
  {
    CoreBasics(g, s);
    hide Core, Quiet, Takes, InRange;
    PopEffect(g, s, w);
    var t := Apply(g, s, Pop(w));
    if s.ring.count == 0 { QuietKeepsCore(g, s, t); } else { TakesKeepsCore(g, s, t, w, s.ring.Front()); }
  }

  lemma CheckEffect(g: seq<Node>, s: State, w: nat)
    requires InRange(g, s) && Enabled(g, s, Check(w))
    ensures var t, d := Apply(g, s, Check(w)), s.workers[w].node;
            && t.remaining == s.remaining
            && if s.hasError then Releases(g, s, t, w, d, Dropped) else Starts(g, s, t, w, d)
  {
    StepKeepsRange(g, s, Check(w));
  }

  lemma CheckKeepsCore(g: seq<Node>, s: State, w: nat)
    requires Core(g, s) && Enabled(g, s, Check(w))
    ensures Core(g, Apply(g, s, Check(w)))
  {
    CoreBasics(g, s);
    hide Core, Releases, Starts, InRange;
    CheckEffect(g, s, w);
    var t, d := Apply(g, s, Check(w)), s.workers[w].node;
    if s.hasError { ReleasesKeepsCore(g, s, t, w, d, Dropped); } else { StartsKeepsCore(g, s, t, w, d); }
  }

  lemma FailEffect(g: seq<Node>, s: State, w: nat)
    requires InRange(g, s) && Enabled(g, s, Fail(w))
    ensures var t := Apply(g, s, Fail(w));
            t.remaining == s.remaining && Releases(g, s, t, w, s.workers[w].node, Failed(w))
  {
    StepKeepsRange(g, s, Fail(w));
  }

  lemma FailKeepsCore(g: seq<Node>, s: State, w: nat)
    requires Core(g, s) && Enabled(g, s, Fail(w))
    ensures Core(g, Apply(g, s, Fail(w)))
  {
    CoreBasics(g, s);
    hide Core, Releases, InRange;
    FailEffect(g, s, w);
    ReleasesKeepsCore(g, s, Apply(g, s, Fail(w)), w, s.workers[w].node, Failed(w));
  }

  lemma FinishEffect(g: seq<Node>, s: State, w: nat)
    requires InRange(g, s) && Enabled(g, s, Finish(w)) && s.remaining <= U64
    ensures var t := Apply(g, s, Finish(w));
            && (s.remaining > 0 ==> t.remaining == s.remaining - 1)
            && Releases(g, s, t, w, s.workers[w].node, Done)
  {
    StepKeepsRange(g, s, Finish(w));
  }

  lemma FinishKeepsCore(g: seq<Node>, s: State, w: nat)
    requires Core(g, s) && Enabled(g, s, Finish(w))
    ensures Core(g, Apply(g, s, Finish(w)))
    ensures s.remaining > 0 && Apply(g, s, Finish(w)).remaining == s.remaining - 1
  {
    CoreBasics(g, s);
    hide Core, Releases, InRange;
    FinishEffect(g, s, w);
    ReleasesKeepsCore(g, s, Apply(g, s, Finish(w)), w, s.workers[w].node, Done);
  }

  lemma NotifyEffect(g: seq<Node>, s: State, w: nat)
    requires InRange(g, s) && Enabled(g, s, Notify(w))
    ensures var t, d, i := Apply(g, s, Notify(w)), s.workers[w].node, s.workers[w].i;
            && t.remaining == s.remaining
            && if i == |g[d].dependents| then Quiet(g, s, t)
               else var x := g[d].dependents[i];
                 if Active(g, x) && s.pending[x] == 1 then Grabs(g, s, t, w, d, i, x) else Visits(g, s, t, w, d, i)
  {
    StepKeepsRange(g, s, Notify(w));
  }

  lemma NotifyKeepsCore(g: seq<Node>, s: State, w: nat)
    requires Core(g, s) && Enabled(g, s, Notify(w))
    ensures Core(g, Apply(g, s, Notify(w)))
  {
    CoreBasics(g, s);
    hide Core, Quiet, Grabs, Visits, InRange, Apply;
    NotifyEffect(g, s, w);
    var t, d, i := Apply(g, s, Notify(w)), s.workers[w].node, s.workers[w].i;
    if i == |g[d].dependents| {
      QuietKeepsCore(g, s, t);
    } else {
      var x := g[d].dependents[i];
      if Active(g, x) && s.pending[x] == 1 {
        GrabsKeepsCore(g, s, t, w, d, i, x);
      } else {
        VisitsKeepsCore(g, s, t, w, d, i);
      }
    }
  }

  lemma PushEffect(g: seq<Node>, s: State, w: nat, wake: Option<nat>)
    requires InRange(g, s) && Enabled(g, s, Push(w, wake))
    ensures var t := Apply(g, s, Push(w, wake));
            t.remaining == s.remaining && Puts(g, s, t, w, g[s.workers[w].node].dependents[s.workers[w].i])
  {
    StepKeepsRange(g, s, Push(w, wake));
  }

  lemma PushKeepsCore(g: seq<Node>, s: State, w: nat, wake: Option<nat>)
    requires Core(g, s) && Enabled(g, s, Push(w, wake))
    ensures Core(g, Apply(g, s, Push(w, wake)))
  {
    CoreBasics(g, s);
    hide Core, Puts, Apply;
    PushEffect(g, s, w, wake);
    PutsKeepsCore(g, s, Apply(g, s, Push(w, wake)), w, g[s.workers[w].node].dependents[s.workers[w].i]);
  }

  lemma SeedEffect(g: seq<Node>, s: State)
    requires InRange(g, s) && Enabled(g, s, Seed)
    requires s.main.i < |g| && Active(g, s.main.i) ==> s.pending[s.main.i] <= g[s.main.i].marks.pendingDeps
    ensures var t, i := Apply(g, s, Seed), s.main.i;
            && t.remaining == s.remaining
            && if i < |g| && Active(g, i) && s.pending[i] == 0 then SeedGrabs(g, s, t, i) else Quiet(g, s, t)
  {
    StepKeepsRange(g, s, Seed);
  }

  lemma SeedKeepsCore(g: seq<Node>, s: State)
    requires Core(g, s) && Enabled(g, s, Seed) && Clean(g, s, Seed)
    ensures Core(g, Apply(g, s, Seed))
  {
    CoreBasics(g, s);
    hide Core, Quiet, SeedGrabs, Apply;
    SeedEffect(g, s);
    var t, i := Apply(g, s, Seed), s.main.i;
    if i < |g| && Active(g, i) && s.pending[i] == 0 {
      SeedGrabsKeepsCore(g, s, t, i);
    } else {
      QuietKeepsCore(g, s, t);
    }
  }

  lemma PushSeedEffect(g: seq<Node>, s: State, wake: Option<nat>)
    requires InRange(g, s) && Enabled(g, s, PushSeed(wake))
    ensures var t := Apply(g, s, PushSeed(wake)); t.remaining == s.remaining && SeedPuts(g, s, t, s.main.i)
  {
    StepKeepsRange(g, s, PushSeed(wake));
  }

  lemma PushSeedKeepsCore(g: seq<Node>, s: State, wake: Option<nat>)
    requires Core(g, s) && Enabled(g, s, PushSeed(wake))
    ensures Core(g, Apply(g, s, PushSeed(wake)))
  {
    CoreBasics(g, s);
    hide Core, SeedPuts, Apply;
    PushSeedEffect(g, s, wake);
    SeedPutsKeepsCore(g, s, Apply(g, s, PushSeed(wake)), s.main.i);
  }

  /** The steps that only move a program counter or set a flag. */
  predicate Silent(a: Action) {
    match a
    case Succeed(_) => true
    case StoreError(_) => true
    case BroadcastError(_) => true
    case Lock => true
    case Test => true
    case Commit => true
    case ShutDown => true
    case Join => true
    case SpuriousWorker(_) => true
    case SpuriousMain => true
    case _ => false
  }

  lemma SilentIsQuiet(g: seq<Node>, s: State, a: Action)
    requires InRange(g, s) && Enabled(g, s, a) && Silent(a)
    ensures Quiet(g, s, Apply(g, s, a)) && Apply(g, s, a).remaining == s.remaining
  {
    StepKeepsRange(g, s, a);
  }

  lemma StepKeepsCore(g: seq<Node>, s: State, a: Action)
    requires Core(g, s) && Enabled(g, s, a) && Clean(g, s, a)
    ensures Core(g, Apply(g, s, a))
  {
    CoreBasics(g, s);
    hide Core, Apply, Enabled, Clean, InRange;
    match a
    case Pop(w) => PopKeepsCore(g, s, w);
    case Check(w) => CheckKeepsCore(g, s, w);
    case Fail(w) => FailKeepsCore(g, s, w);
    case Notify(w) => NotifyKeepsCore(g, s, w);
    case Push(w, wake) => PushKeepsCore(g, s, w, wake);
    case Finish(w) => FinishKeepsCore(g, s, w);
    case Seed => SeedKeepsCore(g, s);
    case PushSeed(wake) => PushSeedKeepsCore(g, s, wake);
    case _ =>
      SilentIsQuiet(g, s, a);
      QuietKeepsCore(g, s, Apply(g, s, a));
  }

  lemma CoreBasics(g: seq<Node>, s: State)
    requires Core(g, s)
    ensures InRange(g, s) && s.remaining <= U64
    ensures forall d: nat | d < |g| && Active(g, d) :: s.pending[d] <= g[d].marks.pendingDeps
  {
  }
}
