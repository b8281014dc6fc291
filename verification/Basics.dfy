/** What several modules share. */
module Basics {
  const U32 := 0x1_0000_0000

  datatype Option<+T> = None | Some(value: T)

  /** A set of numbers below `n` has at most `n` members. */
  lemma {:induction false} BelowCount(n: nat, r: set<nat>)
    requires forall i | i in r :: i < n
    ensures |r| <= n
    decreases n
  {
    if n == 0 { assert r == {}; } else { BelowCount(n - 1, r - {n - 1}); }
  }
}
