/** The ring buffer behind the worker pool: a value model of the four fields that the
    queue operations touch, and the class whose methods update them in place. */
module TaskQueues {
  import opened ModArith

  /** The buffer, its two cursors and its element count. */
  datatype Ring = Ring(buffer: seq<nat>, head: nat, tail: nat, count: nat) {

    function Capacity(): nat { |buffer| }

    /** The cursors agree with the count; the queue holds at most `Capacity()` elements. */
    ghost predicate Valid() {
      && 0 < |buffer|
      && head < |buffer|
      && tail == (head + count) % |buffer|
      && count <= |buffer|
    }

    /** The represented queue, oldest element first. */
    ghost function Contents(): (s: seq<nat>)
      requires 0 < |buffer|
    {
      seq(count, k => buffer[(head + k) % |buffer|])
    }

    /** `queue_push` writes at the tail whether or not there is room. */
    function Push(x: nat): Ring
      requires tail < |buffer|
    {
      Ring(buffer[tail := x], head, (tail + 1) % |buffer|, count + 1)
    }

    function Front(): nat
      requires head < |buffer|
    {
      buffer[head]
    }

    function Pop(): Ring
      requires head < |buffer| && 0 < count
    {
      Ring(buffer, (head + 1) % |buffer|, tail, count - 1)
    }
  }

  function EmptyRing(capacity: nat): (r: Ring)
    requires 0 < capacity
    ensures r.Valid() && r.Contents() == [] && r.Capacity() == capacity
  {
    Ring(seq(capacity, _ => 0), 0, 0, 0)
  }

  /** Pushing appends exactly when there is room; a full ring loses its oldest element instead. */
  lemma PushContents(r: Ring, x: nat)
    requires r.Valid()
    ensures r.count < r.Capacity() ==> r.Push(x).Valid() && r.Push(x).Contents() == r.Contents() + [x]
    ensures r.count == r.Capacity() ==> !r.Push(x).Valid() && r.Push(x).buffer[r.head] == x
  {
    var n, r' := |r.buffer|, r.Push(x);
    ModWrap(r.head + r.count, n);
    if r.count < n {
      ModAddLeft(r.head + r.count, 1, n);
      forall k: nat | k <= r.count
        ensures r'.Contents()[k] == (r.Contents() + [x])[k]
      {
        ModWrap(r.head + k, n);
      }
    }
  }

  lemma PopContents(r: Ring)
    requires r.Valid() && 0 < r.count
    ensures r.Contents() == [r.Front()] + r.Pop().Contents()
    ensures r.Pop().Valid()
  {
    var n, r' := |r.buffer|, r.Pop();
    ModWrap(r.head, n);
    ModAddLeft(r.head + 1, r'.count, n);
    forall k | 0 <= k < r'.count
      ensures r'.Contents()[k] == r.Contents()[k + 1]
    {
      ModAddLeft(r.head + 1, k, n);
    }
  }

  /** The queue object of one `zmm_bg_exec` call. */
  class TaskQueue {
    const buffer: array<nat>
    var head: nat
    var tail: nat
    var count: nat
    var shutdown: bool

    ghost function Abs(): (r: Ring)
      reads this, buffer
    {
      Ring(buffer[..], head, tail, count)
    }

    constructor (capacity: nat)
      requires 0 < capacity
      ensures Abs() == EmptyRing(capacity) && !shutdown && fresh(buffer)
    {
      buffer := new nat[capacity](_ => 0);
      head, tail, count, shutdown := 0, 0, 0, false;
      new;
      assert buffer[..] == seq(capacity, _ => 0);
    }

    method Push(node: nat)
      requires tail < buffer.Length
      modifies this`tail, this`count, buffer
      ensures Abs() == old(Abs()).Push(node)
      ensures old(Abs().Valid()) && old(count) < buffer.Length ==>
        Abs().Valid() && Abs().Contents() == old(Abs().Contents()) + [node]
    {
      PushContentsIfRoom(Abs(), node);
      buffer[tail] := node;
      tail := (tail + 1) % buffer.Length;
      count := count + 1;
    }

    /** One pass through the critical section of `queue_pop`: `Wait` stands for blocking
        on `not_empty`, after which the caller comes back here. */
    method TryPop() returns (r: PopResult)
      requires Abs().Valid()
      modifies this`head, this`count
      ensures Abs().Valid()
      ensures r == PopOutcome(old(Abs()), shutdown)
      ensures old(Abs().Contents()) == (if r.Item? then [r.node] else []) + Abs().Contents()
      ensures !r.Item? ==> Abs() == old(Abs()) && Abs().Contents() == []
    {
      if count == 0 && !shutdown { return Wait; }
      if shutdown && count == 0 { return Closed; }
      PopContents(Abs());
      r := Item(buffer[head]);
      head := (head + 1) % buffer.Length;
      count := count - 1;
    }

    method Shutdown()
      modifies this`shutdown
      ensures shutdown
    {
      shutdown := true;
    }
  }

  datatype PopResult = Wait | Closed | Item(node: nat)

  function PopOutcome(r: Ring, shutdown: bool): PopResult
    requires r.head < |r.buffer|
  {
    if r.count != 0 then Item(r.Front()) else if shutdown then Closed else Wait
  }

  lemma PushContentsIfRoom(r: Ring, x: nat)
    ensures r.Valid() && r.count < r.Capacity() ==>
      r.Push(x).Valid() && r.Push(x).Contents() == r.Contents() + [x]
  {
    if r.Valid() { PushContents(r, x); }
  }
}
