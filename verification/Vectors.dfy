/** Integer vectors of one fixed length, compared and added entry by entry. */
module Vectors {
  type Vec = seq<int>

  function Plus(u: Vec, v: Vec): Vec
    requires |u| == |v|
  {
    seq(|u|, j requires 0 <= j < |u| => u[j] + v[j])
  }

  function Minus(u: Vec, v: Vec): Vec
    requires |u| == |v|
  {
    seq(|u|, j requires 0 <= j < |u| => u[j] - v[j])
  }

  function Zeros(m: nat): Vec {
    seq(m, _ => 0)
  }

  predicate Leq(u: Vec, v: Vec)
    requires |u| == |v|
  {
    forall j | 0 <= j < |u| :: u[j] <= v[j]
  }

  predicate NonNeg(u: Vec) {
    forall j | 0 <= j < |u| :: 0 <= u[j]
  }

  /** The sum of column j over the rows of a matrix. */
  function ColSum(a: seq<Vec>, j: nat): int
    requires forall i | 0 <= i < |a| :: j < |a[i]|
  {
    if a == [] then 0 else a[0][j] + ColSum(a[1..], j)
  }

  lemma {:induction false} ColSumUpdate(a: seq<Vec>, j: nat, k: nat, row: Vec)
    requires forall i | 0 <= i < |a| :: j < |a[i]|
    requires k < |a| && j < |row|
    ensures ColSum(a[k := row], j) == ColSum(a, j) - a[k][j] + row[j]
  {
    if k == 0 {
      assert a[k := row][1..] == a[1..];
    } else {
      assert a[k := row][1..] == a[1..][k - 1 := row];
      ColSumUpdate(a[1..], j, k - 1, row);
    }
  }

  lemma {:induction false} ColSumZero(a: seq<Vec>, j: nat)
    requires forall i | 0 <= i < |a| :: j < |a[i]| && a[i][j] == 0
    ensures ColSum(a, j) == 0
  {
    if a != [] {
      ColSumZero(a[1..], j);
    }
  }
}
