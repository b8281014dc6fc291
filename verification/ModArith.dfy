/** The few facts about `%` by a variable divisor that the ring buffer and the hash table need. */
module ModArith {

  lemma MulAtLeast(a: int, n: nat)
    ensures 1 <= a ==> n <= a * n
    ensures a <= -1 ==> a * n + n <= 0
  {
    assert a * n == (a - 1) * n + n == (a + 1) * n - n;
    assert 1 <= a ==> 0 <= (a - 1) * n;
    assert a <= -1 ==> (a + 1) * n <= 0;
  }

  /** Quotient and remainder are unique. */
  lemma ModIs(x: int, q: int, r: int, n: nat)
    requires 0 <= r < n && x == q * n + r
    ensures x % n == r
  {
    var q', r' := x / n, x % n;
    assert x == q' * n + r';
    var e := q - q';
    assert e * n == r' - r by { assert (q - q') * n == q * n - q' * n; }
    MulAtLeast(e, n);
  }

  /** An index that passed the end of a cyclic buffer at most once. */
  lemma ModWrap(x: nat, n: nat)
    requires 0 < n && x < 2 * n
    ensures x % n == if x < n then x else x - n
  {
    if x < n { ModIs(x, 0, x, n); } else { ModIs(x, 1, x - n, n); }
  }

  /** Reducing a summand first makes no difference. */
  lemma ModAddLeft(x: int, y: int, n: nat)
    requires 0 < n
    ensures (x % n + y) % n == (x + y) % n
  {
    var q, z := x / n, x % n + y;
    assert x + y == q * n + z;
    assert z == (z / n) * n + z % n;
    assert x + y == (q + z / n) * n + z % n by {
      assert (q + z / n) * n == q * n + (z / n) * n;
    }
    ModIs(x + y, q + z / n, z % n, n);
  }
}
