/** When the leader of the token ring stops: at the first sum that an earlier round had. */
module TokenRingSums {
  import opened TokenRing

  /** The sums looked up in a run, in order. */
  ghost function Sums(s: Ring, acts: seq<Action>): seq<int>
    requires Inv(s) && RunsFrom(s, acts)
    decreases |acts|
  {
    if acts == [] then []
    else
      NextInv(s, acts[0]);
      (if acts[0].LeaderMoves? && s.leader == LookUp then [s.sum] else []) + Sums(Next(s, acts[0]), acts[1..])
  }

  lemma NextMarks(s: Ring, a: Action, x: int)
    requires Inv(s) && Legal(s, a)
    ensures |Next(s, a).H| == |s.H|
    ensures 0 <= x < |s.H| ==> (Next(s, a).H[x] <==> s.H[x] || (a.LeaderMoves? && s.leader == LookUp && x == s.sum))
  {
    match a {
      case Joins =>
      case LeaderMoves(r) => LeaderMarks(s, r);
      case FollowerMoves(f, r) =>
    }
  }

  lemma LeaderMarks(s: Ring, r: int)
    requires Inv(s) && LeaderCan(s) && 1 <= r <= 99
    ensures s.leader == LookUp ==> 0 <= s.sum < |s.H|
    ensures LeaderStep(s, r).H == if s.leader == LookUp then s.H[s.sum := true] else s.H
  {
    LeaderInv(s, r);
  }

  /** The sums marked are those looked up, and those marked before. */
  lemma {:induction false} MarksAreSums(s: Ring, acts: seq<Action>, x: int)
    requires Inv(s) && RunsFrom(s, acts) && 0 <= x < |s.H|
    ensures |Outcome(s, acts).H| == |s.H| && (Outcome(s, acts).H[x] <==> s.H[x] || x in Sums(s, acts))
    decreases |acts|
  {
    if acts != [] {
      NextInv(s, acts[0]);
      NextMarks(s, acts[0], x);
      MarksAreSums(Next(s, acts[0]), acts[1..], x);
    }
  }

  /** When a sum is looked up, the leader ends if it was looked up before in the run, and draws again if not. */
  lemma EndsAtRepeatedSum(n: nat, acts: seq<Action>, r: int)
    requires n >= 1 && Inv(Start(n)) && RunsFrom(Start(n), acts) && 1 <= r <= 99
    requires Outcome(Start(n), acts).leader == LookUp && Inv(Outcome(Start(n), acts))
    ensures var s := Outcome(Start(n), acts); var t := Next(s, LeaderMoves(r));
      && s.n == n < |s.v| && s.sum == SumTo(s.v, n + 1) && FreshBefore(s, n + 1)
      && t.leader == if s.sum in Sums(Start(n), acts) then End else Draw
  {
    RunsEnd(Start(n), acts);
    SumIsInside(Outcome(Start(n), acts));
    MarksAreSums(Start(n), acts, Outcome(Start(n), acts).sum);
  }
}
