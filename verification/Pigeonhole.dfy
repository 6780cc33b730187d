/** Counting the numbers below n. */
module Pigeonhole {
  /** Different ones are at most n. */
  lemma {:induction false} Crowd(a: seq<nat>, n: nat)
    requires forall k | 0 <= k < |a| :: a[k] < n
    requires forall i, k | 0 <= i < k < |a| :: a[i] != a[k]
    ensures |a| <= n
    decreases n
  {
    if a != [] {
      assert a[0] < n;
      if i :| 0 <= i < |a| && a[i] == n - 1 {
        Crowd(a[..i] + a[i + 1..], n - 1);
      } else {
        Crowd(a, n - 1);
      }
    }
  }

  /** All the numbers below n are n. */
  lemma {:induction false} FullSet(n: nat, a: set<nat>)
    requires forall i: nat :: i in a <==> i < n
    ensures |a| == n
  {
    if n == 0 {
      assert a == {};
    } else {
      FullSet(n - 1, a - {n - 1});
    }
  }

  /** A set of them has at most n. */
  lemma {:induction false} BelowBound(a: set<nat>, n: nat)
    requires forall x | x in a :: x < n
    ensures |a| <= n
  {
    if n == 0 {
      assert a == {};
    } else {
      BelowBound(a - {n - 1}, n - 1);
    }
  }
}
