/** Triangular probing over a power of two, and the bit trick that rounds capacities up. */
module Probing {
  import opened Basics
  import opened ModArith

  function Pow2(k: nat): (p: nat)
    ensures 0 < p
  {
    if k == 0 then 1 else 2 * Pow2(k - 1)
  }

  ghost predicate IsPow2(n: nat) {
    exists k: nat :: n == Pow2(k)
  }

  /** The sum of the first `s` step widths. */
  function Tri(s: nat): nat {
    if s == 0 then 0 else Tri(s - 1) + s
  }

  /** The slot that the probe loop looks at after `s` steps. */
  function Probe(h: nat, s: nat, n: nat): (i: nat)
    requires 0 < n
    ensures i < n
  {
    (h + Tri(s)) % n
  }

  lemma ProbeStart(h: nat, n: nat)
    requires 0 < n
    ensures Probe(h, 0, n) == h % n
  {
  }

  lemma ProbeStep(h: nat, s: nat, n: nat)
    requires 0 < n
    ensures Probe(h, s + 1, n) == (Probe(h, s, n) + (s + 1)) % n
  {
    ModAddLeft(h + Tri(s), s + 1, n);
  }

  lemma {:induction false} TriTwice(s: nat)
    ensures 2 * Tri(s) == s * (s + 1)
  {
    if s > 0 { TriTwice(s - 1); }
  }

  // ---- Divisibility by powers of two ----

  ghost predicate Divides(d: nat, x: int) {
    exists q: int :: x == q * d
  }

  /** An odd factor does not help a power of two to divide a product. */
  lemma {:induction false} OddFactor(k: nat, x: int, y: int)
    requires x % 2 == 1 && Divides(Pow2(k), x * y)
    ensures Divides(Pow2(k), y)
    decreases k
  {
    if k == 0 {
      assert y == y * Pow2(0);
    } else {
      var q: int :| x * y == q * Pow2(k);
      var i, p := x / 2, Pow2(k - 1);
      assert x * y == 2 * (i * y) + y by { assert (2 * i + 1) * y == 2 * (i * y) + y; }
      assert q * (2 * p) == 2 * (q * p);
      var z := q * p - i * y;
      assert y == 2 * z;
      assert x * z == q * p by { assert x * (2 * z) == 2 * (x * z); }
      OddFactor(k - 1, x, z);
      var r: int :| z == r * p;
      assert y == r * Pow2(k);
    }
  }

  lemma SmallMultiple(d: nat, x: nat)
    requires 0 < d && Divides(d, x) && x < d
    ensures x == 0
  {
    var q: int :| x == q * d;
    MulAtLeast(q, d);
  }

  lemma EqualRemainders(x: nat, y: nat, n: nat)
    requires 0 < n && x % n == y % n
    ensures Divides(n, y - x)
  {
    assert y - x == (y / n - x / n) * n by {
      assert (y / n - x / n) * n == (y / n) * n - (x / n) * n;
    }
  }

  lemma TriDifference(a: nat, b: nat)
    ensures (b - a) * (a + b + 1) == 2 * (Tri(b) - Tri(a))
  {
    TriTwice(a);
    TriTwice(b);
    assert (b - a) * (a + b + 1) == b * (a + b + 1) - a * (a + b + 1);
    assert b * (a + b + 1) == b * a + b * (b + 1);
    assert a * (a + b + 1) == a * (a + 1) + a * b;
  }

  lemma MeetingProduct(h: nat, k: nat, a: nat, b: nat, x: int, y: int)
    requires a < b && Probe(h, a, Pow2(k)) == Probe(h, b, Pow2(k)) && x == b - a && y == a + b + 1
    ensures Divides(Pow2(k + 1), x * y) && Divides(Pow2(k + 1), y * x)
  {
    hide *;
    var n := Pow2(k);
    ProbeIs(h, a, n);
    ProbeIs(h, b, n);
    EqualRemainders(h + Tri(a), h + Tri(b), n);
    TriDifference(a, b);
    assert (h + Tri(b)) - (h + Tri(a)) == Tri(b) - Tri(a);
    DividesTwice(n, Tri(b) - Tri(a), x * y);
    assert x * y == y * x;
    Pow2Doubles(k);
  }

  lemma ProbeIs(h: nat, s: nat, n: nat)
    requires 0 < n
    ensures Probe(h, s, n) == (h + Tri(s)) % n
  {
  }

  lemma DividesTwice(n: nat, d: int, p: int)
    requires Divides(n, d) && p == 2 * d
    ensures Divides(2 * n, p)
  {
    var q: int :| d == q * n;
    assert q * (2 * n) == 2 * (q * n);
  }

  lemma Pow2Doubles(k: nat)
    ensures Pow2(k + 1) == 2 * Pow2(k)
  {
  }

  /** The steps of a probe sequence that meet again are a power-of-two factor apart. */
  lemma MeetingSteps(h: nat, k: nat, a: nat, b: nat)
    requires a < b && Probe(h, a, Pow2(k)) == Probe(h, b, Pow2(k))
    ensures Divides(Pow2(k + 1), b - a) || Divides(Pow2(k + 1), a + b + 1)
  {
    hide *;
    var x, y := b - a, a + b + 1;
    MeetingProduct(h, k, a, b, x, y);
    OneIsOdd(x, y, b);
    if x % 2 == 1 { OddFactor(k + 1, x, y); } else { OddFactor(k + 1, y, x); }
  }

  lemma OneIsOdd(x: int, y: int, z: int)
    requires x + y == 2 * z + 1
    ensures x % 2 == 1 || y % 2 == 1
  {
  }

  /** The first `n` probes are pairwise distinct. */
  lemma ProbesDistinct(h: nat, n: nat, a: nat, b: nat)
    requires IsPow2(n) && a < b < n
    ensures Probe(h, a, n) != Probe(h, b, n)
  {
    var k: nat :| n == Pow2(k);
    if Probe(h, a, n) == Probe(h, b, n) {
      MeetingSteps(h, k, a, b);
      SmallMultiple(Pow2(k + 1), if Divides(Pow2(k + 1), b - a) then b - a else a + b + 1);
    }
  }

  /** The sequence comes back to its start at step `2n - 1` and not before. */
  lemma FirstReturn(h: nat, n: nat, s: nat)
    requires IsPow2(n) && 0 < s
    ensures Probe(h, s, n) == Probe(h, 0, n) ==> 2 * n - 1 <= s
    ensures Probe(h, 2 * n - 1, n) == Probe(h, 0, n)
  {
    var k: nat :| n == Pow2(k);
    if Probe(h, s, n) == Probe(h, 0, n) && s < 2 * n - 1 {
      MeetingSteps(h, k, 0, s);
      if Divides(Pow2(k + 1), s - 0) { SmallMultiple(Pow2(k + 1), s); } else { SmallMultiple(Pow2(k + 1), s + 1); }
    }
    TriTwice(2 * n - 1);
    assert Tri(2 * n - 1) == (2 * n - 1) * n by { assert (2 * n - 1) * (2 * n) == 2 * ((2 * n - 1) * n); }
    ModMultiple(h, 2 * n - 1, n);
  }

  lemma ModMultiple(h: nat, q: nat, n: nat)
    requires 0 < n
    ensures (h + q * n) % n == h % n
  {
    assert h + q * n == (h / n + q) * n + h % n by { assert (h / n + q) * n == (h / n) * n + q * n; }
    ModIs(h + q * n, h / n + q, h % n, n);
  }

  // ---- Coverage ----

  ghost function Probed(h: nat, n: nat, k: nat): (r: set<nat>)
    requires 0 < n
  {
    if k == 0 then {} else Probed(h, n, k - 1) + {Probe(h, k - 1, n)}
  }

  lemma {:induction false} ProbedIs(h: nat, n: nat, k: nat, i: nat)
    requires 0 < n
    ensures i in Probed(h, n, k) <==> exists s: nat :: s < k && Probe(h, s, n) == i
  {
    if k > 0 { ProbedIs(h, n, k - 1, i); }
  }

  lemma {:induction false} ProbedCount(h: nat, n: nat, k: nat)
    requires IsPow2(n) && 0 < n && k <= n
    ensures |Probed(h, n, k)| == k
  {
    if k > 0 {
      ProbedCount(h, n, k - 1);
      ProbedIs(h, n, k - 1, Probe(h, k - 1, n));
      forall s: nat | s < k - 1
        ensures Probe(h, s, n) != Probe(h, k - 1, n)
      {
        ProbesDistinct(h, n, s, k - 1);
      }
    }
  }

  lemma {:induction false} ProbedBelow(h: nat, n: nat, k: nat)
    requires 0 < n
    ensures forall x | x in Probed(h, n, k) :: x < n
  {
    if k > 0 { ProbedBelow(h, n, k - 1); }
  }

  /** Every slot is reached within the first `n` probes, by exactly one of them. */
  lemma ProbesCover(h: nat, n: nat, i: nat) returns (s: nat)
    requires IsPow2(n) && 0 < n && i < n
    ensures s < n && Probe(h, s, n) == i
    ensures forall t: nat | t < n && Probe(h, t, n) == i :: t == s
  {
    var r := Probed(h, n, n);
    ProbedCount(h, n, n);
    ProbedBelow(h, n, n);
    if i !in r {
      MissingCount(n, r, i);
      assert false;
    }
    ProbedIs(h, n, n, i);
    s :| s < n && Probe(h, s, n) == i;
    forall t: nat | t < n && Probe(h, t, n) == i
      ensures t == s
    {
      if t < s { ProbesDistinct(h, n, t, s); } else if s < t { ProbesDistinct(h, n, s, t); }
    }
  }

  lemma MissingCount(n: nat, r: set<nat>, i: nat)
    requires i < n && i !in r && forall x | x in r :: x < n
    ensures |r| < n
  {
    BelowCount(n, r + {i});
  }

  // ---- kroundup32 ----

  /** Bitwise or. */
  function Or(x: nat, y: nat): nat
    decreases x + y
  {
    if x == 0 && y == 0 then 0
    else 2 * Or(x / 2, y / 2) + if x % 2 == 1 || y % 2 == 1 then 1 else 0
  }

  /** Shift to the right. */
  function Shr(x: nat, w: nat): (r: nat)
    ensures r <= x
    decreases w
  {
    if w == 0 then x else Shr(x / 2, w - 1)
  }

  /** Increment and decrement of a 32-bit word. */
  function Inc32(x: nat): nat { if x == U32 - 1 then 0 else x + 1 }

  function Dec32(x: nat): nat { if x == 0 then U32 - 1 else x - 1 }

  /** Copies the highest set bit into every place to its right. */
  function SmearAll(x0: nat): nat {
    var x1 := Or(x0, Shr(x0, 1));
    var x2 := Or(x1, Shr(x1, 2));
    var x3 := Or(x2, Shr(x2, 4));
    var x4 := Or(x3, Shr(x3, 8));
    Or(x4, Shr(x4, 16))
  }

  /** The bit trick on 32-bit words. */
  function Kroundup32(x: nat): nat {
    Inc32(SmearAll(Dec32(x)))
  }

  lemma {:induction false} OrZero(x: nat)
    ensures Or(x, 0) == x
    decreases x
  {
    if x > 0 { OrZero(x / 2); }
  }

  lemma {:induction false} Pow2Grows(a: nat, b: nat)
    requires a <= b
    ensures Pow2(a) <= Pow2(b)
    decreases b - a
  {
    if a < b { Pow2Grows(a + 1, b); }
  }

  lemma {:induction false} Pow2Sum(a: nat, b: nat)
    ensures Pow2(a + b) == Pow2(a) * Pow2(b)
    decreases a
  {
    if a > 0 {
      Pow2Sum(a - 1, b);
      assert (2 * Pow2(a - 1)) * Pow2(b) == 2 * (Pow2(a - 1) * Pow2(b));
    }
  }

  /** What a `b`-bit number may lack from all ones if its top `w` bits are set. */
  function Slack(b: nat, w: nat): nat {
    if w <= b then Pow2(b - w) else 1
  }

  lemma {:induction false} ShrHalf(x: nat, w: nat)
    ensures Shr(x, w) / 2 == Shr(x / 2, w)
    decreases w
  {
    if w > 0 { ShrHalf(x / 2, w - 1); }
  }

  lemma {:induction false} ShrZero(x: nat, w: nat)
    requires x < Pow2(w)
    ensures Shr(x, w) == 0
    decreases w
  {
    if w > 0 { ShrZero(x / 2, w - 1); }
  }

  /** A bit inside a block of ones that starts at bit `c`. */
  lemma {:induction false} BitIsOne(b: nat, c: nat, x: nat, w: nat)
    requires c <= w < b && x < Pow2(b) && Pow2(b) <= x + Pow2(c)
    ensures Shr(x, w) % 2 == 1
    decreases w
  {
    if w > 0 { BitIsOne(b - 1, if c > 0 then c - 1 else 0, x / 2, w - 1); }
  }

  /** One smearing step doubles the block of ones at the top. */
  lemma {:induction false} Smear(b: nat, x: nat, w: nat)
    requires 0 < w && x < Pow2(b) && Pow2(b) <= x + Slack(b, w)
    ensures var y := Or(x, Shr(x, w)); y < Pow2(b) && Pow2(b) <= y + Slack(b, 2 * w)
    decreases b
  {
    if b <= w {
      Pow2Grows(b, w);
      ShrZero(x, w);
      OrZero(x);
    } else {
      ShrHalf(x, w);
      Smear(b - 1, x / 2, w);
      if b <= 2 * w { BitIsOne(b, b - w, x, w); }
    }
  }

  lemma {:induction false} TopBit(x: nat) returns (b: nat)
    requires x > 0
    ensures b > 0 && Pow2(b - 1) <= x < Pow2(b)
    decreases x
  {
    if x == 1 { b := 1; } else {
      b := TopBit(x / 2);
      b := b + 1;
    }
  }

  lemma Pow2Is32()
    ensures Pow2(31) == U32 / 2 && Pow2(32) == U32
  {
    assert Pow2(8) == 256;
    Pow2Sum(8, 8);
    Pow2Sum(16, 16);
  }

  lemma Least(x: nat, b: nat)
    requires 0 < b && Pow2(b - 1) < x
    ensures forall k: nat | x <= Pow2(k) :: Pow2(b) <= Pow2(k)
  {
    forall k: nat | x <= Pow2(k)
      ensures Pow2(b) <= Pow2(k)
    {
      if k < b { Pow2Grows(k, b - 1); } else { Pow2Grows(b, k); }
    }
  }

  lemma Smeared(x0: nat, b: nat)
    requires 0 < b <= 32 && Pow2(b - 1) <= x0 < Pow2(b)
    ensures SmearAll(x0) == Pow2(b) - 1
  {
    assert Pow2(b) == 2 * Pow2(b - 1);
    hide Pow2, Or, Shr;
    Smear(b, x0, 1);
    var x1 := Or(x0, Shr(x0, 1));
    Smear(b, x1, 2);
    var x2 := Or(x1, Shr(x1, 2));
    Smear(b, x2, 4);
    var x3 := Or(x2, Shr(x2, 4));
    Smear(b, x3, 8);
    Smear(b, Or(x3, Shr(x3, 8)), 16);
  }

  /** `kroundup32` gives the least power of two that is at least its argument, up to 2^31; of 0, and beyond 2^31, it
      gives 0. */
  lemma RoundsUp(x: nat)
    requires x < U32
    ensures 0 < x <= U32 / 2 ==>
      && IsPow2(Kroundup32(x)) && x <= Kroundup32(x) <= U32 / 2
      && forall k: nat | x <= Pow2(k) :: Kroundup32(x) <= Pow2(k)
    ensures x == 0 || x > U32 / 2 ==> Kroundup32(x) == 0
  {
    Pow2Is32();
    if x == 1 {
      OneRoundsUp();
    } else if x == 0 {
      hide Pow2, SmearAll;
      Smeared(U32 - 1, 32);
    } else {
      hide Pow2, SmearAll;
      var b := TopBit(x - 1);
      if b > 32 { Pow2Grows(32, b - 1); }
      Smeared(x - 1, b);
      if b <= 31 { Pow2Grows(b, 31); } else { assert b == 32; }
      Least(x, b);
    }
  }

  lemma OneRoundsUp()
    ensures Kroundup32(1) == Pow2(0) && forall k: nat :: 1 <= Pow2(k)
  {
    OrZero(0);
  }
}
