/** The token ring of a leader and n followers in shared memory: the token goes round in p[2], one memory
    access a step, in any interleaving. */
module TokenRing {
  /** Where the leader is: waiting for all to join; drawing; passing the token; waiting for it; adding up
      the values from the i-th on; looking the sum up; ending; waiting for all to leave; finished. */
  datatype LeaderPc = WaitJoin | Draw | Pass | WaitToken | Add(i: nat) | LookUp | End | WaitEnd | Finished

  /** Where a follower is: waiting for the token; looking at its sign; writing its value; passing it on;
      passing the end on; gone. */
  datatype FollowerPc = Spin | Test | Write | Send | Leave | Gone

  /** n followers are to join, and joined is p[1]; token is p[2]; v[f] is p[3+f], last written in round
      stamp[f]; H marks the sums seen; flr[f-1] is follower f; left lists those who passed the end on. */
  datatype Ring = Ring(n: nat, joined: nat, token: int, v: seq<int>, stamp: seq<nat>,
                       leader: LeaderPc, sum: int, H: seq<bool>, round: nat,
                       flr: seq<FollowerPc>, left: seq<nat>)

  function SizeH(n: nat): nat {
    100 + 9 * n
  }

  function Start(n: nat): Ring {
    Ring(n, 0, 0, seq(n + 1, _ => 0), seq(n + 1, _ => 0), WaitJoin, 0, seq(SizeH(n), _ => false), 0, [], [])
  }

  /** Joining, taken as one step: refused when all have joined. */
  function Join(s: Ring): Ring {
    if s.joined == s.n then s else s.(joined := s.joined + 1, flr := s.flr + [Spin])
  }

  predicate LeaderCan(s: Ring) {
    match s.leader
    case WaitJoin => s.joined >= s.n
    case WaitToken => s.token == 0
    case WaitEnd => s.token == 0
    case Finished => false
    case _ => true
  }

  /** The leader's next step; r is its random number, from 1 to 99. */
  function LeaderStep(s: Ring, r: int): Ring
    requires LeaderCan(s) && |s.v| == |s.stamp| > s.n
    requires s.leader == LookUp ==> 0 <= s.sum < |s.H|
    requires s.leader.Add? ==> s.leader.i <= s.n
  {
    match s.leader
    case WaitJoin => s.(leader := Draw)
    case Draw => s.(sum := r, v := s.v[0 := r], round := s.round + 1, stamp := s.stamp[0 := s.round + 1], leader := Pass)
    case Pass => s.(token := 1, leader := WaitToken)
    case WaitToken => s.(leader := if s.n == 0 then LookUp else Add(1))
    case Add(i) => s.(sum := s.sum + s.v[i], leader := if i == s.n then LookUp else Add(i + 1))
    case LookUp => if s.H[s.sum] then s.(leader := End) else s.(H := s.H[s.sum := true], leader := Draw)
    case End => s.(token := -1, leader := WaitEnd)
    case WaitEnd => s.(leader := Finished)
  }

  predicate FollowerCan(s: Ring, f: nat) {
    1 <= f <= |s.flr| &&
    match s.flr[f - 1]
    case Spin => s.token == f || s.token + f == 0
    case Gone => false
    case _ => true
  }

  /** Follower f's next step; r is its random number, from 1 to 9. */
  function FollowerStep(s: Ring, f: nat, r: int): Ring
    requires FollowerCan(s, f) && f < |s.v| == |s.stamp|
  {
    match s.flr[f - 1]
    case Spin => s.(flr := s.flr[f - 1 := Test])
    case Test => s.(flr := s.flr[f - 1 := if s.token == f then Write else Leave])
    case Write => s.(flr := s.flr[f - 1 := Send], v := s.v[f := r], stamp := s.stamp[f := s.round])
    case Send => s.(flr := s.flr[f - 1 := Spin], token := if f == s.n then 0 else f + 1)
    case Leave => s.(flr := s.flr[f - 1 := Gone], token := if f == s.n then 0 else -(f + 1), left := s.left + [f])
  }

  // ----- the invariant

  function SumTo(v: seq<int>, k: nat): int
    requires k <= |v|
  {
    if k == 0 then 0 else SumTo(v, k - 1) + v[k - 1]
  }

  function Count(H: seq<bool>): nat {
    if H == [] then 0 else Count(H[..|H| - 1]) + if H[|H| - 1] then 1 else 0
  }

  predicate AllSpin(s: Ring) {
    forall f | 0 <= f < |s.flr| :: s.flr[f] == Spin
  }

  /** Everybody before k has written a value of its own this round. */
  predicate FreshBefore(s: Ring, k: nat) {
    && k <= |s.v| == |s.stamp|
    && forall g | 0 <= g < k :: s.stamp[g] == s.round && 1 <= s.v[g] <= if g == 0 then 99 else 9
  }

  /** Follower f has the token; the others wait. */
  predicate Turn(s: Ring, f: nat) {
    && 1 <= f <= s.n == |s.flr|
    && (forall i | 0 <= i < s.n && i != f - 1 :: s.flr[i] == Spin)
    && s.flr[f - 1] != Gone && s.flr[f - 1] != Leave
    && FreshBefore(s, if s.flr[f - 1] == Send then f + 1 else f)
  }

  /** Follower f has the end; those before it are gone, the others wait. */
  predicate Ending(s: Ring, f: nat) {
    && 1 <= f <= s.n == |s.flr|
    && (forall i | 0 <= i < s.n && i != f - 1 :: s.flr[i] == if i < f then Gone else Spin)
    && (s.flr[f - 1] == Spin || s.flr[f - 1] == Test || s.flr[f - 1] == Leave)
    && s.left == Upto(f - 1)
  }

  /** The followers 1 to k in order. */
  function Upto(k: nat): seq<nat> {
    seq(k, i => i + 1)
  }

  predicate Marks(s: Ring) {
    && |s.H| == SizeH(s.n)
    && (forall x | 0 <= x < |s.H| && s.H[x] :: s.n + 1 <= x <= 99 + 9 * s.n)
    && Count(s.H) == s.round - if Between(s.leader) then 1 else 0
  }

  /** In the middle of a round, or after the last, whose sum is not marked afresh. */
  predicate Between(pc: LeaderPc) {
    pc != WaitJoin && pc != Draw
  }

  ghost predicate Inv(s: Ring) {
    && 1 <= s.n && |s.v| == |s.stamp| == s.n + 1 && s.joined == |s.flr| <= s.n
    && (s.leader != WaitJoin ==> s.joined == s.n)
    && (s.left != [] ==> s.leader == WaitEnd || s.leader == Finished)
    && Marks(s)
    && match s.leader
       case WaitJoin => s.token == 0 && AllSpin(s) && s.round == 0
       case Draw => s.token == 0 && AllSpin(s)
       case Pass => s.token == 0 && AllSpin(s) && FreshBefore(s, 1) && s.sum == s.v[0]
       case WaitToken =>
         && s.sum == s.v[0]
         && (if s.token == 0 then AllSpin(s) && FreshBefore(s, s.n + 1) else s.token > 0 && Turn(s, s.token))
       case Add(i) => s.token == 0 && AllSpin(s) && FreshBefore(s, s.n + 1) && 1 <= i <= s.n && s.sum == SumTo(s.v, i)
       case LookUp => s.token == 0 && AllSpin(s) && FreshBefore(s, s.n + 1) && s.sum == SumTo(s.v, s.n + 1)
       case End => s.token == 0 && AllSpin(s)
       case WaitEnd => if s.token == 0 then AllGone(s) else s.token < 0 && Ending(s, -s.token)
       case Finished => AllGone(s)
  }

  predicate AllGone(s: Ring) {
    && s.left == Upto(s.n)
    && forall f | 0 <= f < |s.flr| :: s.flr[f] == Gone
  }

  lemma {:induction false} SumBounds(s: Ring, k: nat)
    requires FreshBefore(s, k) && k >= 1
    ensures k <= SumTo(s.v, k) <= 90 + 9 * k
    decreases k
  {
    if k > 1 {
      SumBounds(s, k - 1);
    } else {
      assert SumTo(s.v, 0) == 0;
    }
  }

  lemma {:induction false} CountNone(H: seq<bool>)
    requires forall x | 0 <= x < |H| :: !H[x]
    ensures Count(H) == 0
    decreases |H|
  {
    if H != [] {
      CountNone(H[..|H| - 1]);
    }
  }

  lemma {:induction false} CountMark(H: seq<bool>, x: nat)
    requires x < |H| && !H[x]
    ensures Count(H[x := true]) == Count(H) + 1
    decreases |H|
  {
    var last := |H| - 1;
    if x == last {
      assert H[x := true][..last] == H[..last];
    } else {
      CountMark(H[..last], x);
      assert H[x := true][..last] == H[..last][x := true];
    }
  }

  /** Marks between lo and hi only: the pigeonhole. */
  lemma {:induction false} CountBound(H: seq<bool>, lo: nat, hi: nat)
    requires lo <= hi + 1 && forall x | 0 <= x < |H| && H[x] :: lo <= x <= hi
    ensures Count(H) <= hi + 1 - lo
    decreases |H|
  {
    if H != [] {
      var last := |H| - 1;
      if H[last] {
        if last == lo {
          CountNone(H[..last]);
        } else {
          CountBound(H[..last], lo, last - 1);
        }
      } else {
        CountBound(H[..last], lo, hi);
      }
    }
  }

  /** The sum that is looked up is that of one fresh value from everybody, and lies inside the table. */
  lemma SumIsInside(s: Ring)
    requires Inv(s) && s.leader == LookUp
    ensures s.sum == SumTo(s.v, s.n + 1) && FreshBefore(s, s.n + 1)
    ensures s.n + 1 <= s.sum <= 99 + 9 * s.n < |s.H|
  {
    SumBounds(s, s.n + 1);
  }

  lemma StartInv(n: nat)
    requires n >= 1
    ensures Inv(Start(n))
  {
    CountNone(Start(n).H);
  }

  lemma JoinInv(s: Ring)
    requires Inv(s)
    ensures Inv(Join(s))
  {
  }

  lemma LookUpInv(s: Ring, r: int)
    requires Inv(s) && s.leader == LookUp
    ensures 0 <= s.sum < |s.H| && Inv(LeaderStep(s, r))
  {
    SumIsInside(s);
    if !s.H[s.sum] {
      CountMark(s.H, s.sum);
    }
  }

  lemma AddInv(s: Ring, r: int)
    requires Inv(s) && LeaderCan(s) && (s.leader == WaitToken || s.leader.Add?)
    ensures Inv(LeaderStep(s, r))
  {
    assert SumTo(s.v, 1) == SumTo(s.v, 0) + s.v[0];
  }

  lemma DrawInv(s: Ring, r: int)
    requires Inv(s) && (s.leader == Draw || s.leader == Pass) && 1 <= r <= 99
    ensures Inv(LeaderStep(s, r))
  {
  }

  lemma LeaderInv(s: Ring, r: int)
    requires Inv(s) && LeaderCan(s) && 1 <= r <= 99
    ensures s.leader == LookUp ==> 0 <= s.sum < |s.H|
    ensures Inv(LeaderStep(s, r))
  {
    match s.leader {
      case LookUp => LookUpInv(s, r);
      case Draw => DrawInv(s, r);
      case Pass => DrawInv(s, r);
      case WaitToken => AddInv(s, r);
      case Add(_) => AddInv(s, r);
      case _ =>
    }
  }

  /** Only the follower with the token can take a step. */
  lemma WhoCan(s: Ring, f: nat)
    requires Inv(s) && FollowerCan(s, f)
    ensures (s.leader == WaitToken && f == s.token && Turn(s, f)) || (s.leader == WaitEnd && f + s.token == 0 && Ending(s, f))
  {
  }

  lemma FollowerInv(s: Ring, f: nat, r: int)
    requires Inv(s) && FollowerCan(s, f) && 1 <= r <= 9
    ensures Inv(FollowerStep(s, f, r))
  {
    WhoCan(s, f);
    if s.leader == WaitEnd {
      EndInv(s, f, r);
    } else {
      TurnInv(s, f, r);
    }
  }

  lemma EndInv(s: Ring, f: nat, r: int)
    requires Inv(s) && FollowerCan(s, f) && s.leader == WaitEnd && f + s.token == 0 && Ending(s, f)
    ensures Inv(FollowerStep(s, f, r))
  {
    assert Upto(f - 1) + [f] == Upto(f);
  }

  lemma TurnInv(s: Ring, f: nat, r: int)
    requires Inv(s) && FollowerCan(s, f) && s.leader == WaitToken && f == s.token && Turn(s, f) && 1 <= r <= 9
    ensures Inv(FollowerStep(s, f, r))
  {
  }

  // ----- one process at a time

  /** Once all have joined and until all have left, exactly one process can take a step; before and after,
      no follower can. */
  lemma ExactlyOneCanStep(s: Ring)
    requires Inv(s)
    ensures forall f: nat, g: nat | FollowerCan(s, f) && FollowerCan(s, g) :: f == g
    ensures forall f: nat | FollowerCan(s, f) :: !LeaderCan(s)
    ensures s.leader != WaitJoin && s.leader != Finished ==> LeaderCan(s) || exists f: nat :: FollowerCan(s, f)
    ensures s.leader == WaitJoin || s.leader == Finished ==> forall f: nat :: !FollowerCan(s, f)
    ensures s.leader == WaitJoin ==> (LeaderCan(s) <==> s.joined == s.n)
  {
    forall f: nat | FollowerCan(s, f)
      ensures !LeaderCan(s) && (f == s.token || f + s.token == 0) && (s.token > 0 <==> s.leader == WaitToken)
    {
      WhoCan(s, f);
    }
    if s.leader == WaitToken && s.token != 0 {
      assert FollowerCan(s, s.token);
    } else if s.leader == WaitEnd && s.token != 0 {
      assert FollowerCan(s, -s.token);
    }
  }

  /** With no followers to wait for, the leader sends the token to nobody and waits for ever. */
  lemma NoFollowersNoEnd(r: int)
    ensures var s := LeaderStep(LeaderStep(LeaderStep(Start(0), r), r), r);
            !LeaderCan(s) && forall f: nat :: !FollowerCan(s, f)
  {
  }

  // ----- the leader stops

  /** No more than 8n+100 rounds, by the pigeonhole principle. */
  lemma RoundsBounded(s: Ring)
    requires Inv(s)
    ensures s.round <= 8 * s.n + 100
  {
    CountBound(s.H, s.n + 1, 99 + 9 * s.n);
  }

  /** Steps left in the current round, or in the ending. */
  function StepsLeft(s: Ring): int {
    match s.leader
    case WaitJoin => 6 * s.n + 20
    case Draw => 6 * s.n + 19
    case Pass => 6 * s.n + 18
    case WaitToken => if s.token == 0 then s.n + 3 else 5 * (s.n - s.token) + 8 + FollowerLeft(s, s.token) + s.n
    case Add(i) => s.n - i + 2
    case LookUp => 1
    case End => 6 * s.n + 19
    case WaitEnd => if s.token == 0 then 1 else 5 * (s.n + s.token) + 8 + FollowerLeft(s, -s.token)
    case Finished => 0
  }

  function FollowerLeft(s: Ring, f: int): int {
    if 1 <= f <= |s.flr| then
      match s.flr[f - 1]
      case Spin => 4
      case Test => 3
      case Write => 2
      case Send => 1
      case Leave => 1
      case Gone => 0
    else 0
  }

  /** First the rounds that may still begin, with one for the ending, then the steps in this one. */
  function RoundsLeft(s: Ring): int {
    if s.leader == End || s.leader == WaitEnd || s.leader == Finished then 0
    else if Between(s.leader) then 8 * s.n + 101 - s.round
    else 8 * s.n + 100 - s.round
  }

  lemma LeaderDescends(s: Ring, r: int)
    requires Inv(s) && LeaderCan(s) && 1 <= r <= 99
    ensures s.leader == LookUp ==> 0 <= s.sum < |s.H|
    ensures var t := LeaderStep(s, r);
            0 <= RoundsLeft(t) && 0 <= StepsLeft(t)
            && (RoundsLeft(t) < RoundsLeft(s) || (RoundsLeft(t) == RoundsLeft(s) && StepsLeft(t) < StepsLeft(s)))
  {
    LeaderInv(s, r);
    RoundsBounded(s);
    RoundsBounded(LeaderStep(s, r));
  }

  lemma FollowerDescends(s: Ring, f: nat, r: int)
    requires Inv(s) && FollowerCan(s, f) && 1 <= r <= 9
    ensures var t := FollowerStep(s, f, r);
            RoundsLeft(t) == RoundsLeft(s) && 0 <= StepsLeft(t) < StepsLeft(s)
  {
    WhoCan(s, f);
    if s.leader == WaitEnd {
      EndDescends(s, f, r);
    } else {
      TurnDescends(s, f, r);
    }
  }

  lemma EndDescends(s: Ring, f: nat, r: int)
    requires FollowerCan(s, f) && s.leader == WaitEnd && f + s.token == 0 && Ending(s, f) && |s.v| == |s.stamp| == s.n + 1
    ensures 0 <= StepsLeft(FollowerStep(s, f, r)) < StepsLeft(s)
  {
  }

  lemma TurnDescends(s: Ring, f: nat, r: int)
    requires FollowerCan(s, f) && s.leader == WaitToken && f == s.token && Turn(s, f) && |s.v| == |s.stamp| == s.n + 1
    ensures 0 <= StepsLeft(FollowerStep(s, f, r)) < StepsLeft(s)
  {
  }

  // ----- whole runs

  datatype Action = Joins | LeaderMoves(r: int) | FollowerMoves(f: nat, r: int)

  predicate Legal(s: Ring, a: Action) {
    match a
    case Joins => true
    case LeaderMoves(r) => LeaderCan(s) && 1 <= r <= 99
    case FollowerMoves(f, r) => FollowerCan(s, f) && 1 <= r <= 9
  }

  function Next(s: Ring, a: Action): Ring
    requires Inv(s) && Legal(s, a)
  {
    match a
    case Joins => Join(s)
    case LeaderMoves(r) => LeaderInv(s, r); LeaderStep(s, r)
    case FollowerMoves(f, r) => FollowerStep(s, f, r)
  }

  lemma NextInv(s: Ring, a: Action)
    requires Inv(s) && Legal(s, a)
    ensures Inv(Next(s, a))
  {
    match a {
      case Joins => JoinInv(s);
      case LeaderMoves(r) => LeaderInv(s, r);
      case FollowerMoves(f, r) => FollowerInv(s, f, r);
    }
  }

  ghost predicate RunsFrom(s: Ring, acts: seq<Action>)
    requires Inv(s)
    decreases |acts|
  {
    acts != [] ==> Legal(s, acts[0]) && (NextInv(s, acts[0]); RunsFrom(Next(s, acts[0]), acts[1..]))
  }

  ghost function Outcome(s: Ring, acts: seq<Action>): Ring
    requires Inv(s) && RunsFrom(s, acts)
    decreases |acts|
  {
    if acts == [] then s else NextInv(s, acts[0]); Outcome(Next(s, acts[0]), acts[1..])
  }

  /** The steps other than joining. */
  function Moves(acts: seq<Action>): nat {
    if acts == [] then 0 else (if acts[0].Joins? then 0 else 1) + Moves(acts[1..])
  }

  function Bound(s: Ring): int {
    RoundsLeft(s) * (6 * s.n + 22) + StepsLeft(s)
  }

  lemma StepsBelow(s: Ring)
    requires Inv(s)
    ensures 0 <= StepsLeft(s) < 6 * s.n + 22 && 0 <= RoundsLeft(s) <= 8 * s.n + 100
  {
    RoundsBounded(s);
    if s.leader == WaitToken || s.leader == WaitEnd {
      if s.token != 0 {
        assert 0 <= FollowerLeft(s, s.token) <= 4 && 0 <= FollowerLeft(s, -s.token) <= 4;
      }
    }
  }

  lemma Lexicographic(a: int, b: int, x: int, y: int, k: int)
    requires 0 <= a && 0 <= x && 0 <= y < k
    requires x < a || (x == a && y < b)
    requires 0 <= b
    ensures x * k + y < a * k + b
  {
    if x < a {
      assert x * k + k <= a * k by {
        assert (x + 1) * k <= a * k;
      }
    }
  }

  /** Descending lexicographically lowers the bound. */
  lemma BoundFalls(s: Ring, t: Ring)
    requires Inv(s) && Inv(t) && s.n == t.n
    requires RoundsLeft(t) < RoundsLeft(s) || (RoundsLeft(t) == RoundsLeft(s) && StepsLeft(t) < StepsLeft(s))
    ensures Bound(t) < Bound(s)
  {
    StepsBelow(s);
    StepsBelow(t);
    Lexicographic(RoundsLeft(s), StepsLeft(s), RoundsLeft(t), StepsLeft(t), 6 * s.n + 22);
  }

  lemma SameNumber(s: Ring, a: Action)
    requires Inv(s) && Legal(s, a)
    ensures Next(s, a).n == s.n
  {
  }

  lemma LeaderBound(s: Ring, r: int)
    requires Inv(s) && LeaderCan(s) && 1 <= r <= 99
    ensures Bound(Next(s, LeaderMoves(r))) < Bound(s)
  {
    var t := Next(s, LeaderMoves(r));
    LeaderDescends(s, r);
    LeaderInv(s, r);
    SameNumber(s, LeaderMoves(r));
    BoundFalls(s, t);
  }

  lemma FollowerBound(s: Ring, f: nat, r: int)
    requires Inv(s) && FollowerCan(s, f) && 1 <= r <= 9
    ensures Bound(Next(s, FollowerMoves(f, r))) < Bound(s)
  {
    var t := Next(s, FollowerMoves(f, r));
    FollowerDescends(s, f, r);
    FollowerInv(s, f, r);
    SameNumber(s, FollowerMoves(f, r));
    BoundFalls(s, t);
  }

  lemma NextDescends(s: Ring, a: Action)
    requires Inv(s) && Legal(s, a)
    ensures Next(s, a).n == s.n
    ensures a.Joins? ==> Bound(Next(s, a)) == Bound(s)
    ensures !a.Joins? ==> Bound(Next(s, a)) < Bound(s)
  {
    SameNumber(s, a);
    match a {
      case Joins => JoinKeepsBound(s);
      case LeaderMoves(r) => LeaderBound(s, r);
      case FollowerMoves(f, r) => FollowerBound(s, f, r);
    }
  }

  lemma JoinKeepsBound(s: Ring)
    requires Inv(s)
    ensures Bound(Join(s)) == Bound(s)
  {
  }

  /** Every run, however interleaved and whatever is drawn, keeps the invariant and is bounded; and one in
      which everybody has joined and nobody can go on is over: all followers have left, in order, before
      the leader, after at most 8n+100 rounds. */
  lemma {:induction false} RunsEnd(s: Ring, acts: seq<Action>)
    requires Inv(s) && RunsFrom(s, acts)
    ensures Moves(acts) <= Bound(s) - Bound(Outcome(s, acts))
    ensures var t := Outcome(s, acts);
      && Inv(t) && t.n == s.n && t.round <= 8 * s.n + 100 && 0 <= Bound(t)
      && (t.joined == t.n && !LeaderCan(t) && (forall f: nat :: !FollowerCan(t, f)) ==>
            t.leader == Finished && t.left == Upto(s.n))
    decreases |acts|
  {
    if acts == [] {
      RoundsBounded(s);
      StepsBelow(s);
      ExactlyOneCanStep(s);
      assert RoundsLeft(s) * (6 * s.n + 22) >= 0;
    } else {
      NextInv(s, acts[0]);
      NextDescends(s, acts[0]);
      RunsEnd(Next(s, acts[0]), acts[1..]);
    }
  }

  /** A state that some run from the start comes to. */
  ghost predicate Reached(n: nat, s: Ring) {
    n >= 1 && (StartInv(n); exists acts :: RunsFrom(Start(n), acts) && Outcome(Start(n), acts) == s)
  }

  lemma ReachedStart(n: nat)
    requires n >= 1
    ensures Reached(n, Start(n))
  {
    StartInv(n);
    assert RunsFrom(Start(n), []);
  }

  lemma {:induction false} RunAppend(s: Ring, acts: seq<Action>, a: Action)
    requires Inv(s) && RunsFrom(s, acts) && Inv(Outcome(s, acts)) && Legal(Outcome(s, acts), a)
    ensures RunsFrom(s, acts + [a]) && Outcome(s, acts + [a]) == Next(Outcome(s, acts), a)
    decreases |acts|
  {
    if acts == [] {
      assert acts + [a] == [a];
      NextInv(s, a);
      var t := Next(s, a);
      assert [a][1..] == [] && RunsFrom(t, []) && Outcome(t, []) == t;
    } else {
      NextInv(s, acts[0]);
      RunAppend(Next(s, acts[0]), acts[1..], a);
      assert (acts + [a])[1..] == acts[1..] + [a];
    }
  }

  lemma ReachedInv(n: nat, s: Ring)
    requires Reached(n, s)
    ensures Inv(s) && s.n == n
  {
    StartInv(n);
    var acts :| RunsFrom(Start(n), acts) && Outcome(Start(n), acts) == s;
    RunsEnd(Start(n), acts);
  }

  lemma ReachedNext(n: nat, s: Ring, a: Action)
    requires Reached(n, s) && Legal(s, a)
    ensures Inv(s) && Reached(n, Next(s, a)) && Inv(Next(s, a)) && s.n == Next(s, a).n == n
  {
    ReachedInv(n, s);
    StartInv(n);
    var acts :| RunsFrom(Start(n), acts) && Outcome(Start(n), acts) == s;
    RunAppend(Start(n), acts, a);
    ReachedInv(n, Next(s, a));
  }
}
