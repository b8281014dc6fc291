/** Every effect keeps the ownership invariant. */
module OwnershipSteps {
  import opened Graphs
  import opened Plans
  import opened TaskQueues
  import opened Schedulers
  import opened Ownership

  // ---- Holders and hands ----

  lemma TakesKeepsHolders(g: seq<Node>, s: State, t: State, w: nat, d: nat)
    requires Takes(g, s, t, w, d) && Holders(g, s) && Hands(g, s) && s.phase[d].Queued?
    ensures Holders(g, t) && Hands(g, t)
  {
  }

  lemma StartsKeepsHolders(g: seq<Node>, s: State, t: State, w: nat, d: nat)
    requires Starts(g, s, t, w, d) && Holders(g, s) && Hands(g, s)
    ensures Holders(g, t) && Hands(g, t)
  {
  }

  lemma ReleasesKeepsHolders(g: seq<Node>, s: State, t: State, w: nat, d: nat, to: Phase)
    requires Releases(g, s, t, w, d, to) && Holders(g, s) && Hands(g, s)
    ensures Holders(g, t) && Hands(g, t)
  {
  }

  lemma VisitsKeepsHolders(g: seq<Node>, s: State, t: State, w: nat, d: nat, i: nat)
    requires Visits(g, s, t, w, d, i) && Holders(g, s) && Hands(g, s)
    ensures Holders(g, t) && Hands(g, t)
  {
  }

  lemma GrabsKeepsHolders(g: seq<Node>, s: State, t: State, w: nat, d: nat, i: nat, x: nat)
    requires Grabs(g, s, t, w, d, i, x) && Holders(g, s) && Hands(g, s) && s.phase[x].Waiting?
    ensures Holders(g, t) && Hands(g, t)
  {
  }

  lemma PutsKeepsHolders(g: seq<Node>, s: State, t: State, w: nat, x: nat)
    requires Puts(g, s, t, w, x) && Holders(g, s) && Hands(g, s)
    ensures Holders(g, t) && Hands(g, t)
  {
  }

  lemma SeedGrabsKeepsHolders(g: seq<Node>, s: State, t: State, i: nat)
    requires SeedGrabs(g, s, t, i) && Holders(g, s) && Hands(g, s) && s.phase[i].Waiting?
    ensures Holders(g, t) && Hands(g, t)
  {
  }

  lemma SeedPutsKeepsHolders(g: seq<Node>, s: State, t: State, i: nat)
    requires SeedPuts(g, s, t, i) && Holders(g, s) && Hands(g, s)
    ensures Holders(g, t) && Hands(g, t)
  {
  }

  // ---- The queue ----

  lemma QueueUnaffected(g: seq<Node>, ring: Ring, phase: seq<Phase>, d: nat, to: Phase)
    requires |phase| == |g| && d < |g| && QueueHolds(g, ring, phase)
    requires !phase[d].Queued? && !to.Queued?
    ensures QueueHolds(g, ring, phase[d := to])
  {
  }

  lemma PopKeepsQueue(g: seq<Node>, ring: Ring, phase: seq<Phase>, to: Phase)
    requires |phase| == |g| && QueueHolds(g, ring, phase) && ring.count > 0 && !to.Queued?
    ensures ring.Front() < |g| && phase[ring.Front()].Queued?
    ensures QueueHolds(g, ring.Pop(), phase[ring.Front() := to])
  {
    hide Ring.Contents, Ring.Pop;
    PopContents(ring);
    PopSizes(ring);
    var c, c' := ring.Contents(), ring.Pop().Contents();
    assert c[0] == ring.Front();
    assert forall k | 0 <= k < |c'| :: c'[k] == c[k + 1];
    forall x: nat | x < |g| && x != ring.Front() && phase[x].Queued?
      ensures x in c'
    {
      var k :| 0 <= k < |c| && c[k] == x;
      assert c'[k - 1] == x;
    }
  }

  lemma PopSizes(ring: Ring)
    requires ring.Valid() && ring.count > 0
    ensures ring.Pop().Capacity() == ring.Capacity() && |ring.Contents()| == ring.count
    ensures |ring.Pop().Contents()| == ring.Pop().count == ring.count - 1
  {
  }

  lemma PushSizes(ring: Ring, x: nat)
    requires ring.Valid()
    ensures ring.Push(x).Capacity() == ring.Capacity() && |ring.Contents()| == ring.count
    ensures |ring.Push(x).Contents()| == ring.Push(x).count == ring.count + 1
  {
  }

  lemma {:induction false} DistinctCount(s: seq<nat>, inside: set<nat>)
    requires NoDuplicates(s) && forall k | 0 <= k < |s| :: s[k] in inside
    ensures |s| <= |inside|
    decreases |s|
  {
    if s != [] {
      var last := s[|s| - 1];
      DistinctCount(s[..|s| - 1], inside - {last});
    }
  }

  /** There is always room for a dirty node that is not queued yet. */
  lemma RoomFor(g: seq<Node>, ring: Ring, phase: seq<Phase>, x: nat)
    requires |phase| == |g| && QueueHolds(g, ring, phase) && OnlyActive(g, phase)
    requires x < |g| && Active(g, x) && !phase[x].Queued?
    ensures ring.count < ring.Capacity()
  {
    hide Ring.Valid;
    var c := ring.Contents();
    assert |c| == ring.count;
    DistinctCount(c, ActiveSet(g) - {x});
  }

  lemma PushKeepsQueue(g: seq<Node>, ring: Ring, phase: seq<Phase>, x: nat)
    requires |phase| == |g| && QueueHolds(g, ring, phase) && OnlyActive(g, phase)
    requires x < |g| && Active(g, x) && !phase[x].Queued?
    ensures QueueHolds(g, ring.Push(x), phase[x := Queued])
  {
    RoomFor(g, ring, phase, x);
    hide Ring.Contents, Ring.Push;
    PushContentsIfRoom(ring, x);
    PushSizes(ring, x);
    var c, c' := ring.Contents(), ring.Push(x).Contents();
    forall y: nat | y < |g| && y != x && phase[y].Queued?
      ensures y in c'
    {
      var k :| 0 <= k < |c| && c[k] == y;
      assert c'[k] == y;
    }
    assert c'[|c|] == x;
    assert forall k | 0 <= k < |c| :: c'[k] == c[k];
  }
}
