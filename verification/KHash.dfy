/** The open-addressing table of `khash.h`, with its in-place rehash. */
module KHashes {
  import opened Basics
  import opened Probing
  import opened HashTables

  const MaxBuckets := U32 / 2

  class KHash<K(==), V> {
    const hash: K -> nat
    /** What reallocated memory holds before it is written. */
    const junkKey: K
    const junkVal: V

    var size: nat
    var nOccupied: nat
    var upperBound: nat
    var flags: seq<Slot>
    var keys: seq<K>
    var vals: seq<V>

    /** The map that the table stands for, and the slot of each key. */
    ghost var model: map<K, V>
    ghost var place: map<K, nat>

    function Buckets(): nat
      reads this
    {
      |flags|
    }

    ghost predicate Valid()
      reads this
    {
      && Stores(hash, flags, keys, vals, model, place)
      && size == Count(flags, Live) && nOccupied == Count(flags, Live) + Count(flags, Deleted)
      && upperBound == (if |flags| == 0 then 0 else UpperBound(|flags|))
      && (|flags| == 0 || 4 <= |flags| <= MaxBuckets)
      && (nOccupied <= upperBound || |flags| == MaxBuckets)
    }

    constructor (hash: K -> nat, junkKey: K, junkVal: V)
      ensures Valid() && model == map[] && this.hash == hash
    {
      this.hash, this.junkKey, this.junkVal := hash, junkKey, junkVal;
      size, nOccupied, upperBound := 0, 0, 0;
      flags, keys, vals := [], [], [];
      model, place := map[], map[];
    }

    /** `kh_get`: the slot of the key, or the number of buckets. */
    method Get(key: K) returns (x: nat)
      requires Valid()
      ensures x == if key in model then place[key] else Buckets()
      ensures key in model ==> x < Buckets() && flags[x].Live? && keys[x] == key && vals[x] == model[key]
    {
      var n := |flags|;
      if n == 0 { return 0; }
      var h, s := hash(key), 0;
      var i := h % n;
      var last := i;
      ProbeStart(h, n);
      while !flags[i].Empty? && (flags[i].Deleted? || keys[i] != key)
        invariant i == Probe(h, s, n) && last == Probe(h, 0, n) && s <= 2 * n - 2
        invariant forall t: nat | t < s ::
          var j := Probe(h, t, n); !flags[j].Empty? && (flags[j].Deleted? || keys[j] != key)
        decreases 2 * n - s
      {
        ProbeStep(h, s, n);
        FirstReturn(h, n, s + 1);
        s := s + 1;
        i := (i + s) % n;
        if i == last {
          NotYetFound(hash, flags, keys, vals, model, place, key, s);
          return n;
        }
      }
      NotYetFound(hash, flags, keys, vals, model, place, key, s);
      return if flags[i].Live? then i else n;
    }

    /** `kh_resize`: asks for room for `request` buckets.  Unless the result would be too small for what the
        table holds, it is rebuilt in place with the capacity that `CapacityIsLeast` describes. */
    method Resize(request: nat)
      requires Valid() && request < U32
      modifies this`flags, this`keys, this`vals, this`nOccupied, this`upperBound, this`place
      ensures Valid() && size == old(size)
      ensures var n := NewCapacity(request);
              if size >= UpperBound(n) then flags == old(flags) && keys == old(keys) && vals == old(vals)
                && place == old(place) && nOccupied == old(nOccupied)
              else Buckets() == n && nOccupied == size && Count(flags, Deleted) == 0
    {
      hide Stores, Rehashing, Count, UpperBound, Kroundup32, IsPow2;
      StoresShape(hash, flags, keys, vals, model, place);
      var n := Kroundup32(request);
      CapacityOk(request);
      if n < 4 { n := 4; }
      if size >= UpperBound(n) { return; }
      var newFlags := seq(n, _ => Empty);
      if |flags| < n {
        keys := keys + seq(n - |flags|, _ => junkKey);
        vals := vals + seq(n - |flags|, _ => junkVal);
      }
      assert keys[..|flags|] == old(keys) && vals[..|flags|] == old(vals);
      RehashStarts(hash, flags, newFlags, keys, vals, model, place);
      var f, ks, vs, at := Rehash(hash, flags, newFlags, keys, vals, model, place, size);
      RehashEnds(hash, f, ks, vs, model, at);
      keys, vals := ks[..n], vs[..n];
      flags, place := f, at;
      nOccupied := size;
      upperBound := UpperBound(n);
    }

    /** There is room for a key below the load bound, or it can be made: by clearing tombstones or by doubling. */
    predicate CanGrow()
      reads this
    {
      nOccupied < upperBound || |flags| > 2 * size || |flags| < MaxBuckets
    }

    /** The first part of `kh_put`: afterwards there is room for one more key below the load bound, or the table has
        its largest size and is left as it is. */
    method MakeRoom()
      requires Valid()
      modifies this`flags, this`keys, this`vals, this`nOccupied, this`upperBound, this`place
      ensures Valid() && size == old(size)
      ensures old(CanGrow()) ==> nOccupied < upperBound
      ensures !old(CanGrow()) ==>
        && Buckets() == MaxBuckets && flags == old(flags) && keys == old(keys) && vals == old(vals)
        && place == old(place) && nOccupied == old(nOccupied)
      ensures old(nOccupied < upperBound) ==> flags == old(flags)
      ensures old(nOccupied >= upperBound && CanGrow()) ==>
                Buckets() == RoomFor(old(|flags|), size)
      ensures old(nOccupied >= upperBound && CanGrow()) ==> Count(flags, Deleted) == 0
    {
      hide Stores, Count, UpperBound, NewCapacity, IsPow2, RoomFor;
      if nOccupied >= upperBound {
        StoresShape(hash, flags, keys, vals, model, place);
        CountAll(flags);
        RoomChoice(|flags|, size, nOccupied);
        if |flags| > (2 * size) % U32 {
          Resize(|flags| - 1);
        } else {
          Resize(|flags| + 1);
        }
      }
    }

    /** The slot that `kh_put` settles on: the key's own, or the last tombstone or the free slot on its path.  In a
        table that is full of other keys it is the slot of one of them. */
    method FindSlot(key: K) returns (x: nat)
      requires Valid() && 0 < Buckets()
      ensures x < Buckets()
      ensures key in model ==> x == place[key]
      ensures key !in model && size < Buckets() ==> !flags[x].Live? && OnPath(flags, hash(key), x)
      ensures key !in model && size == Buckets() ==> flags[x].Live? && keys[x] != key
    {
      hide Stores, Count, OnPath, IsPow2, Probe, UpperBound;
      StoresShape(hash, flags, keys, vals, model, place);
      x := ProbeForPut(flags, keys, key, hash(key));
      if exists s: nat :: StopsAt(flags, keys, key, hash(key), s, x) {
        ghost var s: nat :| StopsAt(flags, keys, key, hash(key), s, x);
        SearchEnds(hash, flags, keys, vals, model, place, key, s);
        StopsBeforeFull(flags, keys, key, hash(key), s, x);
      } else {
        WrapEnds(hash, flags, keys, vals, model, place, key, x);
      }
    }

    /** `kh_put`: the slot of the key, which is inserted if it is not there.  A new key comes with whatever value
        the slot holds; the caller overwrites it.  Only when all 2^31 slots hold other keys does it fail: it then
        reports another key's slot as if the key were there.  `ret` is 1 for a slot that was not used since the table
        was last rebuilt, 2 for one that held a deleted key. */
    method Put(key: K) returns (x: nat, ret: int)
      requires Valid()
      modifies this
      ensures Valid() && x < Buckets() && flags[x].Live?
      ensures var full := key !in old(model) && old(size) == MaxBuckets;
              if full then ret == 0 && model == old(model) && keys[x] != key
              else && key in model && x == place[key] && (ret == 0 <==> key in old(model))
                   && model == if key in old(model) then old(model) else old(model)[key := vals[x]]
      ensures key !in old(model) && old(size) < MaxBuckets ==>
        var rebuilt := old(nOccupied >= upperBound && CanGrow());
        && (ret == 1 <==> rebuilt || (x < |old(flags)| && old(flags)[x].Empty?))
        && (ret == 2 <==> !rebuilt && x < |old(flags)| && old(flags)[x].Deleted?)
    {
      hide Stores, OnPath, IsPow2, UpperBound, CanGrow, Count;
      MakeRoom();
      CountAll(flags);
      RoomForPut(|flags|, nOccupied, upperBound);
      x := FindSlot(key);
      if x < |flags| && flags[x].Deleted? { CountSome(flags, Deleted, x); }
      ret := Occupy(key, x);
    }

    /** The last part of `kh_put`, once the slot is found. */
    method Occupy(key: K, x: nat) returns (ret: int)
      requires Valid() && x < Buckets()
      requires key in model ==> x == place[key]
      requires key !in model && !flags[x].Live? ==> OnPath(flags, hash(key), x)
      requires key !in model && !flags[x].Live? ==> nOccupied < upperBound || Buckets() == MaxBuckets
      modifies this`keys, this`flags, this`size, this`nOccupied, this`model, this`place
      ensures Valid() && flags[x].Live? && Buckets() == old(Buckets())
      ensures ret == match old(flags[x]) case Live => 0 case Empty => 1 case Deleted => 2
      ensures old(flags[x]).Live? ==>
        keys == old(keys) && flags == old(flags) && model == old(model) && place == old(place)
      ensures !old(flags[x]).Live? ==>
        key !in old(model) && key in model && place[key] == x && model == old(model)[key := vals[x]]
    {
      hide Stores, OnPath, IsPow2, UpperBound, Count;
      StoresShape(hash, flags, keys, vals, model, place);
      if key in model { StoredIsLive(hash, flags, keys, vals, model, place, key); }
      if flags[x].Live? { return 0; }
      ret := if flags[x].Empty? then 1 else 2;
      InsertKeepsStored(hash, flags, keys, vals, model, place, key, x);
      CountUpdate(flags, x, Live, Live);
      CountUpdate(flags, x, Live, Deleted);
      keys, flags := keys[x := key], flags[x := Live];
      size := size + 1;
      if ret == 1 { nOccupied := nOccupied + 1; }
      model, place := model[key := vals[x]], place[key := x];
    }

    /** `kh_val(h, x) = v`. */
    method SetVal(x: nat, v: V)
      requires Valid() && x < Buckets() && flags[x].Live?
      modifies this`vals, this`model
      ensures Valid() && model == old(model)[keys[x] := v]
    {
      vals := vals[x := v];
      model := model[keys[x] := v];
    }

    /** `kh_del`. */
    method Del(x: nat)
      requires Valid() && x <= Buckets()
      modifies this`flags, this`size, this`model, this`place
      ensures Valid() && Buckets() == old(Buckets())
      ensures model == if x < Buckets() && old(flags)[x].Live? then old(model) - {keys[x]} else old(model)
    {
      if x != |flags| && flags[x].Live? {
        DeleteKeepsStored(hash, flags, keys, vals, model, place, x);
        CountUpdate(flags, x, Deleted, Live);
        CountUpdate(flags, x, Deleted, Deleted);
        flags := flags[x := Deleted];
        size := size - 1;
        model, place := model - {keys[x]}, place - {keys[x]};
      }
    }
  }

  lemma StoredIsLive<K, V>(hash: K -> nat, flags: seq<Slot>, keys: seq<K>, vals: seq<V>,
                           model: map<K, V>, place: map<K, nat>, key: K)
    requires Stores(hash, flags, keys, vals, model, place) && key in model
    ensures key in place && place[key] < |flags| && flags[place[key]].Live?
  {
  }

  lemma DeleteKeepsStored<K, V>(hash: K -> nat, flags: seq<Slot>, keys: seq<K>, vals: seq<V>,
                                model: map<K, V>, place: map<K, nat>, x: nat)
    requires Stores(hash, flags, keys, vals, model, place) && x < |flags| && flags[x].Live?
    ensures Stores(hash, flags[x := Deleted], keys, vals, model - {keys[x]}, place - {keys[x]})
  {
    forall k | k in model && k != keys[x]
      ensures OnPath(flags[x := Deleted], hash(k), place[k])
    {
      UseKeepsPath(flags, x, Deleted, hash(k), place[k]);
    }
  }

  /** The number of buckets after making room: 4 at first; the same again, without the tombstones, if less than half of
      them hold keys; else twice as many. */
  function RoomFor(buckets: nat, size: nat): nat {
    if buckets == 0 then 4 else if buckets > 2 * size then buckets else 2 * buckets
  }

  /** The capacity that `kh_resize` settles on. */
  function NewCapacity(request: nat): nat {
    var n := Kroundup32(request);
    if n < 4 then 4 else n
  }

  /** Asking for one bucket less keeps a capacity, asking for one more doubles it. */
  lemma CapacityOf(n: nat)
    requires n == 0 || (IsPow2(n) && 4 <= n <= MaxBuckets)
    ensures 4 <= n ==> NewCapacity(n - 1) == n
    ensures 0 < n < MaxBuckets ==> NewCapacity(n + 1) == 2 * n
    ensures n == 0 ==> NewCapacity(1) == 4
    ensures n == MaxBuckets ==> NewCapacity(n + 1) == 4
  {
    hide Kroundup32;
    RoundsUp(MaxBuckets + 1);
    if n == 0 {
      OneRoundsUp();
    } else {
      var k: nat :| n == Pow2(k);
      assert k > 0 && n == 2 * Pow2(k - 1);
      CapacityIs(n - 1, k);
      if n < MaxBuckets { CapacityIs(n + 1, k + 1); }
    }
  }

  lemma CapacityIs(request: nat, k: nat)
    requires 0 < k && Pow2(k - 1) < request <= Pow2(k) && 3 <= request <= MaxBuckets
    ensures NewCapacity(request) == Pow2(k)
  {
    hide Kroundup32;
    RoundsUp(request);
    var j: nat :| Kroundup32(request) == Pow2(j);
    if j < k { Pow2Grows(j, k - 1); }
    Pow2Grows(k, if j < k then k else j);
  }

  /** The capacity is the least power of two that is at least 4 and at least what was asked for; a request beyond the
      largest table gives the smallest one. */
  lemma CapacityIsLeast(request: nat)
    requires request < U32
    ensures request <= MaxBuckets ==> 4 <= NewCapacity(request) && request <= NewCapacity(request)
    ensures request <= MaxBuckets ==>
      forall k: nat | 4 <= Pow2(k) && request <= Pow2(k) :: NewCapacity(request) <= Pow2(k)
    ensures request > MaxBuckets ==> NewCapacity(request) == 4
  {
    hide Kroundup32, Pow2, IsPow2;
    RoundsUp(request);
  }

  /** A rebuilt table has room for one more key, and one that cannot grow is too full to be made small. */
  lemma RoomAfter(n: nat, size: nat)
    requires size <= UpperBound(n) || n == 0 == size || n == MaxBuckets
    ensures n > 2 * size && 4 <= n ==> size < UpperBound(n)
    ensures n <= 2 * size && 4 <= n < MaxBuckets ==> size < UpperBound(2 * n)
    ensures n == MaxBuckets && n <= 2 * size ==> size >= UpperBound(4)
    ensures n == MaxBuckets && n <= size ==> size >= UpperBound(n)
    ensures n == 0 ==> size < UpperBound(4)
  {
  }

  /** What `kh_put` asks for when the load bound is reached. */
  lemma RoomChoice(n: nat, size: nat, occupied: nat)
    requires n == 0 || (IsPow2(n) && 4 <= n <= MaxBuckets)
    requires size <= occupied <= n && (occupied <= UpperBound(n) || n == MaxBuckets || n == 0)
    ensures var c := NewCapacity(if n > (2 * size) % U32 then n - 1 else n + 1);
            if n > 2 * size || n < MaxBuckets then size < UpperBound(c) && 4 <= c == RoomFor(n, size)
            else size >= UpperBound(c)
  {
    hide NewCapacity, UpperBound, IsPow2;
    CapacityOf(n);
    RoomAfter(n, size);
  }

  lemma RoomForPut(n: nat, occupied: nat, bound: nat)
    requires bound == if n == 0 then 0 else UpperBound(n)
    requires n == 0 || 4 <= n
    ensures occupied < bound ==> 0 < n && occupied < n
  {
  }

  /** The first `s` probes met neither an empty slot nor the key. */
  ghost predicate Searched<K>(flags: seq<Slot>, keys: seq<K>, key: K, h: nat, s: nat)
    requires 0 < |flags| == |keys|
  {
    forall t: nat | t < s ::
      var j := Probe(h, t, |flags|); !flags[j].Empty? && (flags[j].Deleted? || keys[j] != key)
  }

  lemma SearchedPath<K>(flags: seq<Slot>, keys: seq<K>, key: K, h: nat, s: nat)
    requires 0 < |flags| == |keys| && Searched(flags, keys, key, h, s) && s < |flags|
    ensures OnPath(flags, h, Probe(h, s, |flags|))
  {
    assert NoEmptyBefore(flags, h, s);
  }

  lemma SearchEnds<K, V>(hash: K -> nat, flags: seq<Slot>, keys: seq<K>, vals: seq<V>, model: map<K, V>,
                         place: map<K, nat>, key: K, s: nat)
    requires Stores(hash, flags, keys, vals, model, place) && 0 < |flags| == |keys|
    requires Searched(flags, keys, key, hash(key), s)
    ensures var i := Probe(hash(key), s, |flags|);
            && (flags[i].Empty? ==> key !in model)
            && (flags[i].Live? && keys[i] == key ==> key in model && place[key] == i)
  {
    NotYetFound(hash, flags, keys, vals, model, place, key, s);
  }

  lemma CapacityOk(request: nat)
    requires request < U32
    ensures var n := NewCapacity(request); 4 <= n <= MaxBuckets && IsPow2(n)
  {
    hide Kroundup32;
    RoundsUp(request);
    assert 4 == Pow2(2);
  }

  /** Steps `from` to `to` of the probe sequence meet no tombstone. */
  ghost predicate NoTombstone(flags: seq<Slot>, h: nat, from: nat, to: nat)
    requires 0 < |flags|
  {
    forall u: nat | from <= u < to :: !flags[Probe(h, u, |flags|)].Deleted?
  }

  ghost predicate LastTombstone(flags: seq<Slot>, h: nat, s: nat, t: nat)
    requires 0 < |flags|
  {
    t < s && flags[Probe(h, t, |flags|)].Deleted? && NoTombstone(flags, h, t + 1, s)
  }

  /** The slot for a new key, when the search ends at the empty slot of step `s`: the last tombstone before it, or
      that slot itself. */
  ghost predicate SettlesOn(flags: seq<Slot>, h: nat, s: nat, x: nat)
    requires 0 < |flags|
  {
    if NoTombstone(flags, h, 0, s) then x == Probe(h, s, |flags|)
    else exists t: nat :: LastTombstone(flags, h, s, t) && x == Probe(h, t, |flags|)
  }

  /** The search stops at step `s`, with the key or an empty slot, and `x` is the slot it gives. */
  ghost predicate StopsAt<K>(flags: seq<Slot>, keys: seq<K>, key: K, h: nat, s: nat, x: nat)
    requires 0 < |flags| == |keys|
  {
    && s < |flags| && x < |flags| && Searched(flags, keys, key, h, s)
    && var i := Probe(h, s, |flags|);
       && (flags[i].Empty? || (flags[i].Live? && keys[i] == key))
       && if flags[i].Live? then x == i else !flags[x].Live? && OnPath(flags, h, x) && SettlesOn(flags, h, s, x)
  }

  /** The search has come round to its start without the key or an empty slot: it gives the last tombstone, or, in a
      table without one, its first slot. */
  ghost predicate Wraps<K>(flags: seq<Slot>, keys: seq<K>, key: K, h: nat, x: nat)
    requires 0 < |flags| == |keys|
  {
    && x < |flags| && Searched(flags, keys, key, h, 2 * |flags| - 1)
    && if NoTombstone(flags, h, 0, 2 * |flags| - 1) then x == Probe(h, 0, |flags|)
       else exists t: nat :: LastTombstone(flags, h, 2 * |flags| - 1, t) && x == Probe(h, t, |flags|)
  }

  /** The probe loop of `kh_put`. */
  method ProbeForPut<K(==)>(flags: seq<Slot>, keys: seq<K>, key: K, h: nat) returns (x: nat)
    requires 0 < |flags| == |keys| && IsPow2(|flags|)
    ensures x < |flags|
    ensures (exists s: nat :: StopsAt(flags, keys, key, h, s, x)) || Wraps(flags, keys, key, h, x)
  {
    hide OnPath, IsPow2, Probe;
    var n, step := |flags|, 0;
    var site: nat := n;
    x := n;
    var i := h % n;
    ProbeStart(h, n);
    ghost var seen: nat := 0;
    ghost var wrapped := false;
    if flags[i].Empty? {
      x := i;
    } else {
      var last := i;
      while !flags[i].Empty? && (flags[i].Deleted? || keys[i] != key)
        invariant step <= 2 * n - 2 && i == Probe(h, step, n) && x == n && !wrapped
        invariant Searched(flags, keys, key, h, step)
        invariant site <= n && (site < n ==> flags[site].Deleted?)
        invariant if site < n then LastTombstone(flags, h, step, seen) && site == Probe(h, seen, n)
                  else NoTombstone(flags, h, 0, step)
        decreases 2 * n - step
      {
        if flags[i].Deleted? { site, seen := i, step; }
        ProbeStep(h, step, n);
        FirstReturn(h, n, step + 1);
        step := step + 1;
        i := (i + step) % n;
        if i == last {
          x := site;
          wrapped := true;
          break;
        }
      }
      if x == n {
        x := if flags[i].Empty? && site != n then site else i;
      }
    }
    if wrapped {
      assert Searched(flags, keys, key, h, 2 * n - 1);
      WrapIs(flags, keys, key, h, x, site, seen);
    } else {
      StopIs(flags, keys, key, h, step, x, site, seen);
    }
  }

  lemma WrapIs<K>(flags: seq<Slot>, keys: seq<K>, key: K, h: nat, x: nat, site: nat, seen: nat)
    requires 0 < |flags| == |keys| && Searched(flags, keys, key, h, 2 * |flags| - 1) && site <= |flags|
    requires x == if site < |flags| then site else Probe(h, 0, |flags|)
    requires if site < |flags| then LastTombstone(flags, h, 2 * |flags| - 1, seen) && site == Probe(h, seen, |flags|)
             else NoTombstone(flags, h, 0, 2 * |flags| - 1)
    ensures Wraps(flags, keys, key, h, x)
  {
    hide Probe;
    if site < |flags| {
      assert flags[Probe(h, seen, |flags|)].Deleted? && !NoTombstone(flags, h, 0, 2 * |flags| - 1);
    }
  }

  lemma StopIs<K>(flags: seq<Slot>, keys: seq<K>, key: K, h: nat, s: nat, x: nat, site: nat, seen: nat)
    requires 0 < |flags| == |keys| && IsPow2(|flags|) && Searched(flags, keys, key, h, s) && site <= |flags|
    requires var i := Probe(h, s, |flags|);
             && (flags[i].Empty? || (flags[i].Live? && keys[i] == key))
             && x == if flags[i].Empty? && site < |flags| then site else i
    requires if site < |flags| then LastTombstone(flags, h, s, seen) && site == Probe(h, seen, |flags|)
             else NoTombstone(flags, h, 0, s)
    ensures StopsAt(flags, keys, key, h, s, x)
  {
    hide Probe, OnPath, IsPow2;
    if s >= |flags| {
      var t := ProbesCover(h, |flags|, Probe(h, s, |flags|));
      assert false;
    } else {
      SearchedPath(flags, keys, key, h, s);
      if site < |flags| {
        assert flags[Probe(h, seen, |flags|)].Deleted? && !NoTombstone(flags, h, 0, s);
        SearchedPath(flags, keys, key, h, seen);
      }
    }
  }

  /** A search that stops without the key has met a slot that is not live. */
  lemma StopsBeforeFull<K>(flags: seq<Slot>, keys: seq<K>, key: K, h: nat, s: nat, x: nat)
    requires 0 < |flags| == |keys| && StopsAt(flags, keys, key, h, s, x)
    ensures Count(flags, Live) == |flags| ==> flags[Probe(h, s, |flags|)].Live?
  {
    CountAll(flags);
    if flags[Probe(h, s, |flags|)].Empty? { CountSome(flags, Empty, Probe(h, s, |flags|)); }
  }

  lemma WrapEnds<K, V>(hash: K -> nat, flags: seq<Slot>, keys: seq<K>, vals: seq<V>, model: map<K, V>,
                       place: map<K, nat>, key: K, x: nat)
    requires Stores(hash, flags, keys, vals, model, place) && 0 < |flags| == |keys|
    requires Wraps(flags, keys, key, hash(key), x)
    ensures key !in model
    ensures Count(flags, Live) < |flags| ==> !flags[x].Live? && OnPath(flags, hash(key), x)
    ensures Count(flags, Live) == |flags| ==> flags[x].Live? && keys[x] != key
  {
    hide Stores, OnPath, Count, Probe, IsPow2;
    NotYetFound(hash, flags, keys, vals, model, place, key, 2 * |flags| - 1);
    StoresShape(hash, flags, keys, vals, model, place);
    CountAll(flags);
    if Count(flags, Live) == |flags| {
      WrapsIntoLive(flags, keys, key, hash(key), x);
    } else {
      WrapsIntoTombstone(flags, keys, key, hash(key), x);
    }
  }

  lemma WrapsIntoLive<K>(flags: seq<Slot>, keys: seq<K>, key: K, h: nat, x: nat)
    requires 0 < |flags| == |keys| && Wraps(flags, keys, key, h, x)
    requires Count(flags, Empty) == Count(flags, Deleted) == 0
    ensures flags[x].Live? && keys[x] != key
  {
    hide Count, Probe;
    forall u: nat | u < 2 * |flags| - 1
      ensures !flags[Probe(h, u, |flags|)].Deleted?
    {
      if flags[Probe(h, u, |flags|)].Deleted? { CountSome(flags, Deleted, Probe(h, u, |flags|)); }
    }
    assert NoTombstone(flags, h, 0, 2 * |flags| - 1);
  }

  lemma WrapsIntoTombstone<K>(flags: seq<Slot>, keys: seq<K>, key: K, h: nat, x: nat)
    requires 0 < |flags| == |keys| && IsPow2(|flags|) && Wraps(flags, keys, key, h, x)
    requires Count(flags, Empty) + Count(flags, Deleted) > 0
    ensures flags[x].Deleted? && OnPath(flags, h, x)
  {
    hide Count, Probe, IsPow2, OnPath;
    var n := |flags|;
    var j;
    if Count(flags, Empty) > 0 { j := CountPositive(flags, Empty); } else { j := CountPositive(flags, Deleted); }
    var t := ProbesCover(h, n, j);
    assert flags[Probe(h, t, n)].Deleted? && !NoTombstone(flags, h, 0, 2 * n - 1);
    var u := ProbesCover(h, n, x);
    assert Searched(flags, keys, key, h, u);
    SearchedPath(flags, keys, key, h, u);
  }

  /** The inner probe loop of the rehash: the first free slot on the path of `h`. */
  method FindFree(flags: seq<Slot>, h: nat) returns (i: nat)
    requires IsPow2(|flags|) && 0 < |flags| && Count(flags, Live) < |flags|
    requires forall j | 0 <= j < |flags| :: !flags[j].Deleted?
    ensures i < |flags| && flags[i].Empty? && OnPath(flags, h, i)
  {
    var n, s := |flags|, 0;
    i := h % n;
    ProbeStart(h, n);
    ghost var e := FreeStep(flags, h);
    while !flags[i].Empty?
      invariant s <= e && i == Probe(h, s, n) && NoEmptyBefore(flags, h, s)
      decreases e - s
    {
      ProbeStep(h, s, n);
      s := s + 1;
      i := (i + s) % n;
    }
  }

  lemma FreeStep(flags: seq<Slot>, h: nat) returns (e: nat)
    requires IsPow2(|flags|) && 0 < |flags| && Count(flags, Live) < |flags|
    requires forall j | 0 <= j < |flags| :: !flags[j].Deleted?
    ensures e < |flags| && flags[Probe(h, e, |flags|)].Empty?
  {
    CountAll(flags);
    CountNone(flags, Deleted);
    var i := CountPositive(flags, Empty);
    e := ProbesCover(h, |flags|, i);
  }

  /** The kick-out loop over all old slots.  Old and new table share the key and value arrays. */
  method Rehash<K(==), V>(hash: K -> nat, flags: seq<Slot>, newFlags: seq<Slot>, keys: seq<K>, vals: seq<V>,
                          ghost model: map<K, V>, ghost place: map<K, nat>, ghost size: nat)
    returns (f: seq<Slot>, ks: seq<K>, vs: seq<V>, ghost at: map<K, nat>)
    requires Rehashing(hash, flags, newFlags, keys, vals, model, place, None)
    requires Count(flags, Live) + Count(newFlags, Live) == size < |newFlags|
    ensures |f| == |newFlags| && Count(f, Live) == size
    ensures Rehashing(hash, [], f, ks, vs, model, at, None)
  {
    var oldF := flags;
    f, ks, vs, at := newFlags, keys, vals, place;
    var j := 0;
    while j < |oldF|
      invariant j <= |oldF| == |flags| && |f| == |newFlags|
      invariant Rehashing(hash, oldF, f, ks, vs, model, at, None)
      invariant Count(oldF, Live) + Count(f, Live) == size
      invariant forall i | 0 <= i < j :: !oldF[i].Live?
    {
      if oldF[j].Live? {
        oldF, f, ks, vs, at := Relocate(hash, oldF, f, ks, vs, model, at, size, j);
      }
      j := j + 1;
    }
    CountNone(oldF, Live);
    OldTableIsEmpty(hash, oldF, f, ks, vs, model, at);
  }

  /** One chain of kick-outs, starting from the live old slot `j`; each kick uses up one live old slot. */
  method Relocate<K(==), V>(hash: K -> nat, flags: seq<Slot>, newFlags: seq<Slot>, keys: seq<K>, vals: seq<V>,
                            ghost model: map<K, V>, ghost place: map<K, nat>, ghost size: nat, j: nat)
    returns (oldF: seq<Slot>, f: seq<Slot>, ks: seq<K>, vs: seq<V>, ghost at: map<K, nat>)
    requires Rehashing(hash, flags, newFlags, keys, vals, model, place, None)
    requires Count(flags, Live) + Count(newFlags, Live) == size < |newFlags|
    requires j < |flags| && flags[j].Live?
    ensures |oldF| == |flags| && |f| == |newFlags|
    ensures Rehashing(hash, oldF, f, ks, vs, model, at, None)
    ensures Count(oldF, Live) + Count(f, Live) == size
    ensures forall i | 0 <= i < |oldF| :: oldF[i].Live? ==> flags[i].Live? && i != j
  {
    hide Rehashing, OnPath;
    RehashShape(hash, flags, newFlags, keys, vals, model, place, None);
    var key, val := keys[j], vals[j];
    PickUp(hash, flags, newFlags, keys, vals, model, place, j);
    CountUpdate(flags, j, Deleted, Live);
    oldF, f, ks, vs, at := flags[j := Deleted], newFlags, keys, vals, place - {key};
    while true
      invariant |oldF| == |flags| && |f| == |newFlags|
      invariant Rehashing(hash, oldF, f, ks, vs, model, at, Some((key, val)))
      invariant Count(oldF, Live) + Count(f, Live) + 1 == size
      invariant forall i | 0 <= i < |oldF| :: oldF[i].Live? ==> flags[i].Live? && i != j
      decreases Count(oldF, Live)
    {
      RehashShape(hash, oldF, f, ks, vs, model, at, Some((key, val)));
      var i := FindFree(f, hash(key));
      CountUpdate(f, i, Live, Live);
      if i < |oldF| && oldF[i].Live? {
        KickOut(hash, oldF, f, ks, vs, model, at, key, val, i);
        CountUpdate(oldF, i, Deleted, Live);
        at := (at - {ks[i]})[key := i];
        var tmpKey, tmpVal := ks[i], vs[i];
        ks, vs := ks[i := key], vs[i := val];
        key, val := tmpKey, tmpVal;
        oldF, f := oldF[i := Deleted], f[i := Live];
      } else {
        PutDown(hash, oldF, f, ks, vs, model, at, key, val, i);
        at := at[key := i];
        ks, vs := ks[i := key], vs[i := val];
        f := f[i := Live];
        return;
      }
    }
  }
}
