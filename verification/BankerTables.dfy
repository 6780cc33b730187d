/** The shared arrays AVAILABLE, ALLOC and NEED, and the loops over them that both masters have. */
module BankerTables {
  import opened Vectors
  import opened BankerSpec
  import opened BankerSweep

  class Tables {
    const m: nat
    const n: nat
    const AVAILABLE: array<int>
    const ALLOC: array2<int>
    const NEED: array2<int>
    ghost const Repr: set<object>
    ghost var S: Sys

    /** The arrays hold the abstract state S; who has exited is kept elsewhere. */
    ghost predicate Valid()
      reads this, Repr
    {
      && Repr == {this, AVAILABLE, ALLOC, NEED}
      && AVAILABLE.Length == m
      && ALLOC.Length0 == NEED.Length0 == n
      && ALLOC.Length1 == NEED.Length1 == m
      && ALLOC != NEED
      && |S.alloc| == n && |S.avail| == m
      && AVAILABLE[..] == S.avail
      && (forall i, j | 0 <= i < n && 0 <= j < m :: ALLOC[i, j] == S.alloc[i][j] && NEED[i, j] == S.need[i][j])
    }

    /** Nothing allocated yet: the pool holds `total`, thread i needs max[i]. */
    constructor (total: Vec, max: seq<Vec>)
      requires forall i | 0 <= i < |max| :: |max[i]| == |total|
      ensures Valid() && fresh(Repr) && m == |total| && n == |max|
      ensures S == Raw(total, seq(|max|, _ => Zeros(|total|)), max, seq(|max|, _ => false))
    {
      m, n := |total|, |max|;
      AVAILABLE := new int[|total|](j requires 0 <= j < |total| => total[j]);
      ALLOC := new int[|max|, |total|]((i, j) => 0);
      NEED := new int[|max|, |total|]((i, j) requires 0 <= i < |max| && 0 <= j < |total| => max[i][j]);
      S := Raw(total, seq(|max|, _ => Zeros(|total|)), max, seq(|max|, _ => false));
      Repr := {this, AVAILABLE, ALLOC, NEED};
    }

    method ResourceAvailable(r: Request) returns (flag: bool)
      requires Valid() && Fits(S, r)
      ensures flag <==> Enough(S, r)
    {
      flag := true;
      for j := 0 to m
        invariant flag && forall k | 0 <= k < j :: r.amt[k] <= AVAILABLE[k]
      {
        if r.amt[j] > AVAILABLE[j] {
          flag := false;
          assert r.amt[j] > S.avail[j];
          break;
        }
      }
    }

    method CopyOfAvailable() returns (WORK: array<int>)
      requires Valid()
      ensures fresh(WORK) && WORK.Length == m && WORK[..] == S.avail
    {
      WORK := new int[m](j requires 0 <= j < m reads this, AVAILABLE requires AVAILABLE.Length == m => AVAILABLE[j]);
    }

    /** Whether thread i's need fits in WORK. */
    method FitsIn(i: nat, WORK: array<int>) returns (b: bool)
      requires Valid() && i < n && WORK.Length == m
      ensures b <==> Leq(S.need[i], WORK[..])
    {
      b := true;
      for j := 0 to m
        invariant b && forall k | 0 <= k < j :: NEED[i, k] <= WORK[k]
      {
        if NEED[i, j] > WORK[j] {
          b := false;
          assert S.need[i][j] > WORK[..][j];
          break;
        }
      }
    }

    method Reclaim(i: nat, WORK: array<int>)
      requires Valid() && i < n && WORK.Length == m && WORK != AVAILABLE
      modifies WORK
      ensures Valid()
      ensures WORK[..] == Plus(old(WORK[..]), S.alloc[i])
    {
      for j := 0 to m
        invariant forall k | 0 <= k < m :: WORK[k] == old(WORK[k]) + (if k < j then S.alloc[i][k] else 0)
      {
        WORK[j] := WORK[j] + ALLOC[i, j];
      }
    }

    /** Adds sign * amt to thread i's allocation, out of the pool. */
    method Shift(i: nat, amt: Vec, sign: int)
      requires Valid() && i < n && |amt| == m
      modifies Repr
      ensures Valid()
      ensures S == Move(old(S), i, seq(m, j requires 0 <= j < m => sign * amt[j]))
    {
      ghost var d := seq(m, j requires 0 <= j < m => sign * amt[j]);
      ghost var s := S;
      for j := 0 to m
        invariant forall k | 0 <= k < m :: AVAILABLE[k] == s.avail[k] - (if k < j then d[k] else 0)
        invariant forall h, k | 0 <= h < n && 0 <= k < m ::
          && ALLOC[h, k] == s.alloc[h][k] + (if h == i && k < j then d[k] else 0)
          && NEED[h, k] == s.need[h][k] - (if h == i && k < j then d[k] else 0)
      {
        ALLOC[i, j] := ALLOC[i, j] + sign * amt[j];
        NEED[i, j] := NEED[i, j] - sign * amt[j];
        AVAILABLE[j] := AVAILABLE[j] - sign * amt[j];
      }
      S := Move(s, i, d);
    }

    /** Thread i gives everything back. */
    method Release(i: nat)
      requires Valid() && i < n
      modifies Repr
      ensures Valid()
      ensures S == Quit(old(S), i)
    {
      ghost var s := S;
      for j := 0 to m
        invariant forall k | 0 <= k < m :: AVAILABLE[k] == s.avail[k] + (if k < j then s.alloc[i][k] else 0)
        invariant forall h, k | 0 <= h < n && 0 <= k < m ::
          && ALLOC[h, k] == (if h == i && k < j then 0 else s.alloc[h][k])
          && NEED[h, k] == (if h == i && k < j then 0 else s.need[h][k])
      {
        AVAILABLE[j] := AVAILABLE[j] + ALLOC[i, j];
        ALLOC[i, j] := 0;
        NEED[i, j] := 0;
      }
      S := Quit(s, i);
    }
  }
}
