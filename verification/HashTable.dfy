/** What the arrays of a `khash` table mean: slots, probe paths and the map they store. */
module HashTables {
  import opened Basics
  import opened Probing

  /** The two flag bits of a bucket. */
  datatype Slot = Empty | Deleted | Live

  function Count(flags: seq<Slot>, what: Slot): (c: nat)
    ensures c <= |flags|
  {
    if flags == [] then 0
    else Count(flags[..|flags| - 1], what) + if flags[|flags| - 1] == what then 1 else 0
  }

  lemma {:induction false} CountUpdate(flags: seq<Slot>, i: nat, to: Slot, what: Slot)
    requires i < |flags|
    ensures Count(flags[i := to], what) ==
      Count(flags, what) + (if to == what then 1 else 0) - (if flags[i] == what then 1 else 0)
    decreases |flags|
  {
    var n := |flags| - 1;
    if i < n {
      CountUpdate(flags[..n], i, to, what);
      assert flags[i := to][..n] == flags[..n][i := to];
    } else {
      assert flags[i := to][..n] == flags[..n];
    }
  }

  lemma {:induction false} CountAll(flags: seq<Slot>)
    ensures Count(flags, Empty) + Count(flags, Deleted) + Count(flags, Live) == |flags|
  {
    if flags != [] { CountAll(flags[..|flags| - 1]); }
  }

  lemma {:induction false} CountPositive(flags: seq<Slot>, what: Slot) returns (i: nat)
    requires Count(flags, what) > 0
    ensures i < |flags| && flags[i] == what
  {
    var n := |flags| - 1;
    if flags[n] == what { i := n; } else { i := CountPositive(flags[..n], what); }
  }

  lemma {:induction false} CountNone(flags: seq<Slot>, what: Slot)
    requires forall i | 0 <= i < |flags| :: flags[i] != what
    ensures Count(flags, what) == 0
  {
    if flags != [] { CountNone(flags[..|flags| - 1], what); }
  }

  lemma {:induction false} CountSome(flags: seq<Slot>, what: Slot, i: nat)
    requires i < |flags| && flags[i] == what
    ensures Count(flags, what) > 0
  {
    if i < |flags| - 1 { CountSome(flags[..|flags| - 1], what, i); }
  }

  // ---- Probe paths ----

  /** The first `s` probes of hash `h` meet no empty slot. */
  ghost predicate NoEmptyBefore(flags: seq<Slot>, h: nat, s: nat)
    requires 0 < |flags|
  {
    forall t: nat | t < s :: !flags[Probe(h, t, |flags|)].Empty?
  }

  /** Slot `i` is on the probe path of `h`, and every slot before it on the path is in use. */
  ghost predicate OnPath(flags: seq<Slot>, h: nat, i: nat)
    requires 0 < |flags|
  {
    exists s: nat :: s < |flags| && Probe(h, s, |flags|) == i && NoEmptyBefore(flags, h, s)
  }

  /** Filling or deleting a slot breaks no path. */
  lemma UseKeepsPath(flags: seq<Slot>, i: nat, to: Slot, h: nat, j: nat)
    requires i < |flags| && !to.Empty? && OnPath(flags, h, j)
    ensures OnPath(flags[i := to], h, j)
  {
    var s: nat :| s < |flags| && Probe(h, s, |flags|) == j && NoEmptyBefore(flags, h, s);
    assert NoEmptyBefore(flags[i := to], h, s);
  }

  // ---- The stored map ----

  /** The arrays store exactly the map `model`; `place` gives the slot of each key. */
  ghost predicate Stores<K, V>(hash: K -> nat, flags: seq<Slot>, keys: seq<K>, vals: seq<V>,
                               model: map<K, V>, place: map<K, nat>)
  {
    && |keys| == |vals| == |flags| && (0 < |flags| ==> IsPow2(|flags|))
    && place.Keys == model.Keys
    && (forall k | k in model ::
        place[k] < |flags| && flags[place[k]].Live? && keys[place[k]] == k && vals[place[k]] == model[k])
    && (forall k | k in model :: 0 < |flags| && OnPath(flags, hash(k), place[k]))
    && (forall i | 0 <= i < |flags| && flags[i].Live? :: keys[i] in model && place[keys[i]] == i)
  }

  /** The load bound, `n * 0.77` rounded to the nearest integer. */
  function UpperBound(n: nat): (u: nat)
    ensures 4 <= n ==> 0 < u < n
  {
    (77 * n + 50) / 100
  }

  /** It is 77 percent of the capacity, rounded to the nearest integer. */
  lemma LoadBound(n: nat)
    ensures -50 <= 77 * n - 100 * UpperBound(n) < 50
  {
  }

  /** A probe that has met no empty slot and not the key: where the key can still be. */
  lemma NotYetFound<K, V>(hash: K -> nat, flags: seq<Slot>, keys: seq<K>, vals: seq<V>, model: map<K, V>,
                          place: map<K, nat>, key: K, s: nat)
    requires Stores(hash, flags, keys, vals, model, place) && 0 < |flags|
    requires forall t: nat | t < s ::
      var i := Probe(hash(key), t, |flags|); !flags[i].Empty? && (flags[i].Deleted? || keys[i] != key)
    ensures flags[Probe(hash(key), s, |flags|)].Empty? ==> key !in model
    ensures |flags| <= s ==> key !in model
  {
    if key in model {
      var r: nat :| r < |flags| && Probe(hash(key), r, |flags|) == place[key] && NoEmptyBefore(flags, hash(key), r);
      assert s <= r;
      if s < r { assert !flags[Probe(hash(key), s, |flags|)].Empty?; }
    }
  }

  /** Writing a key into a slot that is not live, at the end of its probe path. */
  lemma InsertKeepsStored<K, V>(hash: K -> nat, flags: seq<Slot>, keys: seq<K>, vals: seq<V>,
                                model: map<K, V>, place: map<K, nat>, key: K, x: nat)
    requires Stores(hash, flags, keys, vals, model, place) && key !in model
    requires x < |flags| && !flags[x].Live? && OnPath(flags, hash(key), x)
    ensures Stores(hash, flags[x := Live], keys[x := key], vals, model[key := vals[x]], place[key := x])
  {
    UseKeepsPath(flags, x, Live, hash(key), x);
    forall k | k in model
      ensures OnPath(flags[x := Live], hash(k), place[k])
    {
      UseKeepsPath(flags, x, Live, hash(k), place[k]);
    }
  }

  // ---- The in-place rehash ----

  predicate LiveAt(flags: seq<Slot>, i: nat) {
    i < |flags| && flags[i].Live?
  }

  ghost predicate Disjoint(oldF: seq<Slot>, newF: seq<Slot>) {
    forall i: nat | LiveAt(oldF, i) :: !LiveAt(newF, i)
  }

  /** The state of the rehash: the key and value arrays are shared by the old and the new table.  Every
      pair of the map is in a slot that exactly one of the two tables owns, or in the hand. */
  ghost predicate Rehashing<K, V>(hash: K -> nat, oldF: seq<Slot>, newF: seq<Slot>, keys: seq<K>, vals: seq<V>,
                                  model: map<K, V>, at: map<K, nat>, hand: Option<(K, V)>)
  {
    && |oldF| <= |keys| == |vals| && 0 < |newF| <= |keys| && IsPow2(|newF|)
    && at.Keys == model.Keys - (if hand.Some? then {hand.value.0} else {})
    && (hand.Some? ==> hand.value.0 in model && hand.value.1 == model[hand.value.0])
    && (forall k | k in at ::
          && at[k] < |keys| && (LiveAt(oldF, at[k]) || LiveAt(newF, at[k]))
          && keys[at[k]] == k && vals[at[k]] == model[k])
    && (forall k | k in at && LiveAt(newF, at[k]) :: OnPath(newF, hash(k), at[k]))
    && (forall i: nat | i < |keys| && (LiveAt(oldF, i) || LiveAt(newF, i)) :: keys[i] in at && at[keys[i]] == i)
    && Disjoint(oldF, newF)
    && (forall i | 0 <= i < |newF| :: !newF[i].Deleted?)
  }

  /** The next live old slot is picked up. */
  lemma PickUp<K, V>(hash: K -> nat, oldF: seq<Slot>, newF: seq<Slot>, keys: seq<K>, vals: seq<V>,
                     model: map<K, V>, at: map<K, nat>, j: nat)
    requires Rehashing(hash, oldF, newF, keys, vals, model, at, None) && j < |oldF| && oldF[j].Live?
    ensures Rehashing(hash, oldF[j := Deleted], newF, keys, vals, model, at - {keys[j]}, Some((keys[j], vals[j])))
  {
    assert LiveAt(oldF, j);
    assert forall i: nat :: LiveAt(oldF[j := Deleted], i) <==> LiveAt(oldF, i) && i != j;
  }

  /** The hand goes to a free new slot that the old table does not use. */
  lemma PutDown<K, V>(hash: K -> nat, oldF: seq<Slot>, newF: seq<Slot>, keys: seq<K>, vals: seq<V>,
                      model: map<K, V>, at: map<K, nat>, key: K, val: V, i: nat)
    requires Rehashing(hash, oldF, newF, keys, vals, model, at, Some((key, val)))
    requires i < |newF| && newF[i].Empty? && OnPath(newF, hash(key), i) && !LiveAt(oldF, i)
    ensures Rehashing(hash, oldF, newF[i := Live], keys[i := key], vals[i := val], model, at[key := i], None)
  {
    hide OnPath;
    NewPaths(hash, newF, at, key, i);
    assert forall m: nat :: LiveAt(newF[i := Live], m) <==> LiveAt(newF, m) || m == i;
  }

  lemma NewPaths<K>(hash: K -> nat, newF: seq<Slot>, at: map<K, nat>, key: K, i: nat)
    requires i < |newF| && newF[i].Empty? && OnPath(newF, hash(key), i)
    requires forall k | k in at && LiveAt(newF, at[k]) :: OnPath(newF, hash(k), at[k])
    ensures OnPath(newF[i := Live], hash(key), i)
    ensures forall k | k in at && LiveAt(newF, at[k]) :: OnPath(newF[i := Live], hash(k), at[k])
  {
    UseKeepsPath(newF, i, Live, hash(key), i);
    forall k | k in at && LiveAt(newF, at[k])
      ensures OnPath(newF[i := Live], hash(k), at[k])
    {
      UseKeepsPath(newF, i, Live, hash(k), at[k]);
    }
  }

  /** The hand goes to a free new slot and kicks out the pair that the old table keeps there. */
  lemma KickOut<K, V>(hash: K -> nat, oldF: seq<Slot>, newF: seq<Slot>, keys: seq<K>, vals: seq<V>,
                      model: map<K, V>, at: map<K, nat>, key: K, val: V, i: nat)
    requires Rehashing(hash, oldF, newF, keys, vals, model, at, Some((key, val)))
    requires i < |newF| && newF[i].Empty? && OnPath(newF, hash(key), i) && LiveAt(oldF, i)
    ensures Rehashing(hash, oldF[i := Deleted], newF[i := Live], keys[i := key], vals[i := val], model,
                      (at - {keys[i]})[key := i], Some((keys[i], vals[i])))
  {
    hide OnPath;
    NewPaths(hash, newF, at, key, i);
    Handover(oldF, newF, i);
    hide LiveAt;
    assert keys[i] in at && at[keys[i]] == i && key !in at;
    assert forall k | k in at && k != keys[i] :: at[k] != i;
  }

  /** Slot `i` changes its owner from the old table to the new one. */
  lemma Handover(oldF: seq<Slot>, newF: seq<Slot>, i: nat)
    requires LiveAt(oldF, i) && i < |newF| && Disjoint(oldF, newF)
    ensures forall m: nat :: LiveAt(newF[i := Live], m) <==> LiveAt(newF, m) || m == i
    ensures forall m: nat :: LiveAt(oldF[i := Deleted], m) <==> LiveAt(oldF, m) && m != i
    ensures Disjoint(oldF[i := Deleted], newF[i := Live])
  {
    var oldF', newF' := oldF[i := Deleted], newF[i := Live];
    forall m: nat | LiveAt(oldF', m)
      ensures !LiveAt(newF', m)
    {
      assert LiveAt(oldF, m);
    }
  }

  lemma RehashShape<K, V>(hash: K -> nat, oldF: seq<Slot>, newF: seq<Slot>, keys: seq<K>, vals: seq<V>,
                          model: map<K, V>, at: map<K, nat>, hand: Option<(K, V)>)
    requires Rehashing(hash, oldF, newF, keys, vals, model, at, hand)
    ensures |oldF| <= |keys| == |vals| && 0 < |newF| <= |keys| && IsPow2(|newF|)
    ensures forall i | 0 <= i < |newF| :: !newF[i].Deleted?
  {
  }

  lemma RehashStarts<K, V>(hash: K -> nat, flags: seq<Slot>, newF: seq<Slot>, keys: seq<K>, vals: seq<V>,
                           model: map<K, V>, place: map<K, nat>)
    requires |flags| <= |keys| == |vals| && 0 < |newF| <= |keys| && IsPow2(|newF|)
    requires Stores(hash, flags, keys[..|flags|], vals[..|flags|], model, place)
    requires forall i | 0 <= i < |newF| :: newF[i].Empty?
    ensures Rehashing(hash, flags, newF, keys, vals, model, place, None)
    ensures Count(newF, Live) == 0
  {
    hide OnPath;
    CountNone(newF, Live);
    assert forall i: nat | i < |flags| :: keys[..|flags|][i] == keys[i] && vals[..|flags|][i] == vals[i];
  }

  lemma OldTableIsEmpty<K, V>(hash: K -> nat, oldF: seq<Slot>, newF: seq<Slot>, keys: seq<K>, vals: seq<V>,
                              model: map<K, V>, at: map<K, nat>)
    requires Rehashing(hash, oldF, newF, keys, vals, model, at, None)
    requires forall i | 0 <= i < |oldF| :: !oldF[i].Live?
    ensures Rehashing(hash, [], newF, keys, vals, model, at, None)
  {
    hide OnPath;
    assert forall i: nat :: LiveAt(oldF, i) == LiveAt([], i);
  }

  lemma StoresShape<K, V>(hash: K -> nat, flags: seq<Slot>, keys: seq<K>, vals: seq<V>,
                          model: map<K, V>, place: map<K, nat>)
    requires Stores(hash, flags, keys, vals, model, place)
    ensures |keys| == |vals| == |flags| && (0 < |flags| ==> IsPow2(|flags|))
  {
  }

  /** When the old table is used up the new one stores the same map, with no tombstone. */
  lemma RehashEnds<K, V>(hash: K -> nat, newF: seq<Slot>, keys: seq<K>, vals: seq<V>, model: map<K, V>, at: map<K, nat>)
    requires Rehashing(hash, [], newF, keys, vals, model, at, None)
    ensures |newF| <= |keys| == |vals|
    ensures Stores(hash, newF, keys[..|newF|], vals[..|newF|], model, at)
    ensures Count(newF, Deleted) == 0
  {
    CountNone(newF, Deleted);
    hide OnPath;
    var ks, vs := keys[..|newF|], vals[..|newF|];
    forall k | k in model
      ensures at[k] < |newF| && newF[at[k]].Live? && ks[at[k]] == k && vs[at[k]] == model[k]
      ensures OnPath(newF, hash(k), at[k])
    {
      assert LiveAt(newF, at[k]);
    }
    forall i | 0 <= i < |newF| && newF[i].Live?
      ensures ks[i] in model && at[ks[i]] == i
    {
      assert LiveAt(newF, i);
    }
    hide LiveAt;
  }
}
