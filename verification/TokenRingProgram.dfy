/** The leader and the followers on the shared array p, each spinning wait filled with the steps of the one
    process that can take any. */
module TokenRingProgram {
  import opened TokenRing

  const MAXFLR: nat := 100

  /** Follower f's turn with the token. */
  function TurnDone(s: Ring, f: nat, r: int): Ring
    requires f < |s.v| == |s.stamp|
  {
    s.(v := s.v[f := r], stamp := s.stamp[f := s.round], token := if f == s.n then 0 else f + 1)
  }

  /** Follower f's turn with the end. */
  function LeaveDone(s: Ring, f: nat): Ring
    requires 1 <= f <= |s.flr|
  {
    s.(flr := s.flr[f - 1 := Gone], token := if f == s.n then 0 else -(f + 1), left := s.left + [f])
  }

  /** A turn with the token is four steps of the follower. */
  lemma TurnSteps(s: Ring, f: nat, r: int)
    requires Reached(s.n, s) && s.leader == WaitToken && s.token == f > 0 && 1 <= r <= 9
    requires 1 <= f <= |s.flr| && s.flr[f - 1] == Spin && f < |s.v| == |s.stamp|
    ensures Reached(s.n, TurnDone(s, f, r))
  {
    var a := FollowerMoves(f, r);
    ReachedNext(s.n, s, a);
    var s1 := Next(s, a);
    ReachedNext(s.n, s1, a);
    var s2 := Next(s1, a);
    ReachedNext(s.n, s2, a);
    var s3 := Next(s2, a);
    ReachedNext(s.n, s3, a);
    assert s.flr[f - 1 := Test][f - 1 := Write][f - 1 := Send][f - 1 := Spin] == s.flr;
    assert Next(s3, a) == TurnDone(s, f, r);
  }

  /** A turn with the end is three. */
  lemma LeaveSteps(s: Ring, f: nat)
    requires Reached(s.n, s) && s.leader == WaitEnd && s.token + f == 0 && f > 0
    requires 1 <= f <= |s.flr| && s.flr[f - 1] == Spin && f < |s.v| == |s.stamp|
    ensures Reached(s.n, LeaveDone(s, f))
  {
    var a := FollowerMoves(f, 1);
    ReachedNext(s.n, s, a);
    var s1 := Next(s, a);
    ReachedNext(s.n, s1, a);
    var s2 := Next(s1, a);
    ReachedNext(s.n, s2, a);
    assert s.flr[f - 1 := Test][f - 1 := Leave][f - 1 := Gone] == s.flr[f - 1 := Gone];
    assert Next(s2, a) == LeaveDone(s, f);
  }

  class SharedRing {
    const n: nat
    const p: array<int>
    const H: array<int>
    var sum: int
    /** The state of the protocol this stands for. */
    ghost var st: Ring

    ghost predicate Mirrors()
      reads this, p, H
    {
      && 1 <= n <= MAXFLR && p.Length == MAXFLR + 4 && H.Length == SizeH(n)
      && Reached(n, st) && st.n == n && |st.v| == |st.stamp| == n + 1 && |st.H| == SizeH(n)
      && p[0] == n && p[1] == st.joined && p[2] == st.token && sum == st.sum
      && (forall f | 0 <= f <= n :: p[3 + f] == st.v[f])
      && (forall x | 0 <= x < SizeH(n) :: H[x] == if st.H[x] then 1 else 0)
    }

    constructor (n: nat)
      requires 1 <= n <= MAXFLR
      ensures Mirrors() && fresh(p) && fresh(H) && this.n == n && st == Start(n)
    {
      this.n := n;
      p := new int[MAXFLR + 4](i => if i == 0 then n else 0);
      H := new int[SizeH(n)](_ => 0);
      sum := 0;
      st := Start(n);
      new;
      ReachedStart(n);
    }

    /** A follower joins and gets its number, or is refused with 0. */
    method JoinAsFollower() returns (f: int)
      requires Mirrors()
      modifies p, `st
      ensures Mirrors() && st == Join(old(st))
      ensures f == if old(st).joined == n then 0 else st.joined
    {
      ReachedNext(n, st, Joins);
      if p[1] == p[0] {
        return 0;
      }
      p[1] := p[1] + 1;
      f := p[1];
      st := Next(st, Joins);
    }

    method WaitForFollowers()
      requires Mirrors() && st.leader == WaitJoin
      modifies p, `st
      ensures Mirrors() && st.leader == Draw
    {
      ReachedInv(n, st);
      while p[1] < n
        invariant Mirrors() && st.leader == WaitJoin && st.joined <= n
        decreases n - st.joined
      {
        var f := JoinAsFollower();
      }
      ReachedNext(n, st, LeaderMoves(1));
      st := LeaderStep(st, 1);
    }

    /** Follower f, whose turn it is, writes its value and passes the token on. */
    method FollowerTurn(f: nat)
      requires Mirrors() && st.leader == WaitToken && st.token == f > 0 && AllSpin(st)
      modifies p, `st
      ensures Mirrors() && st.leader == WaitToken && AllSpin(st)
      ensures st.token == if f == n then 0 else f + 1
      ensures st.round == old(st.round)
    {
      ReachedInv(n, st);
      var r: int :| 1 <= r <= 9;
      TurnSteps(st, f, r);
      p[3 + f] := r;
      p[2] := if f == p[0] then 0 else f + 1;
      st := TurnDone(st, f, r);
    }

    /** Follower f, to whom the end has come, passes it on and leaves. */
    method FollowerLeaves(f: nat)
      requires Mirrors() && st.leader == WaitEnd && st.token + f == 0 && f > 0
      requires 1 <= f <= |st.flr| && st.flr[f - 1] == Spin
      modifies p, `st
      ensures Mirrors() && st == LeaveDone(old(st), f)
    {
      ReachedInv(n, st);
      LeaveSteps(st, f);
      p[2] := if f == p[0] then 0 else -(f + 1);
      st := LeaveDone(st, f);
    }

    /** The leader draws, and sends the token round. */
    method SendRound()
      requires Mirrors() && st.leader == Draw
      modifies p, `sum, `st
      ensures Mirrors() && st.leader == WaitToken && st.token == 0 && AllSpin(st)
      ensures st.round == old(st.round) + 1
    {
      ReachedInv(n, st);
      var r: int :| 1 <= r <= 99;
      ReachedNext(n, st, LeaderMoves(r));
      sum, p[3] := r, r;
      st := LeaderStep(st, r);
      ReachedNext(n, st, LeaderMoves(1));
      p[2] := 1;
      st := LeaderStep(st, 1);
      while p[2] != 0
        invariant Mirrors() && st.leader == WaitToken && AllSpin(st) && 0 <= st.token <= n
        invariant st.round == old(st.round) + 1
        decreases if st.token == 0 then 0 else n + 1 - st.token
      {
        FollowerTurn(p[2]);
      }
    }

    /** The leader adds up everybody's value. */
    method AddUp()
      requires Mirrors() && st.leader == WaitToken && st.token == 0
      modifies `sum, `st
      ensures Mirrors() && st.leader == LookUp && st.round == old(st.round)
    {
      ReachedInv(n, st);
      ReachedNext(n, st, LeaderMoves(1));
      st := LeaderStep(st, 1);
      var i := 1;
      while i <= n
        invariant 1 <= i <= n + 1 && Mirrors() && st.round == old(st.round)
        invariant st.leader == if i <= n then Add(i) else LookUp
      {
        ReachedNext(n, st, LeaderMoves(1));
        sum := sum + p[3 + i];
        st := LeaderStep(st, 1);
        i := i + 1;
      }
    }

    /** The leader looks the sum up, and marks it if it is new. */
    method Seen() returns (seen: bool)
      requires Mirrors() && st.leader == LookUp
      modifies H, `st
      ensures Mirrors() && st.round == old(st.round)
      ensures st.leader == if seen then End else Draw
      ensures sum == old(sum) && 0 <= sum < SizeH(n) && (seen <==> old(st.H)[sum])
    {
      ReachedInv(n, st);
      SumIsInside(st);
      ReachedNext(n, st, LeaderMoves(1));
      seen := H[sum] != 0;
      if !seen {
        H[sum] := 1;
      }
      st := LeaderStep(st, 1);
    }

    method LoopWithFollowers()
      requires Mirrors() && st.leader == Draw
      modifies p, H, `sum, `st
      ensures Mirrors() && st.leader == End
    {
      while true
        invariant Mirrors() && st.leader == Draw
        decreases 8 * n + 101 - st.round
      {
        SendRound();
        AddUp();
        var seen := Seen();
        ReachedInv(n, st);
        RoundsBounded(st);
        if seen {
          break;
        }
      }
    }

    method EndLoop()
      requires Mirrors() && st.leader == End
      modifies p, `st
      ensures Mirrors() && st.leader == Finished
    {
      ReachedNext(n, st, LeaderMoves(1));
      p[2] := -1;
      st := LeaderStep(st, 1);
      while p[2] != 0
        invariant Mirrors() && st.leader == WaitEnd && 0 <= n + st.token <= n && |st.flr| == n
        invariant forall i | 0 <= i < n && -st.token - 1 <= i && st.token != 0 :: st.flr[i] == Spin
        decreases if st.token == 0 then 0 else n + 1 + st.token
      {
        FollowerLeaves(-p[2]);
      }
      ReachedNext(n, st, LeaderMoves(1));
      st := LeaderStep(st, 1);
    }
  }

  /** The whole program: everybody leaves, in order, after at most 8n+100 rounds. */
  method RunRing(n: nat) returns (ring: SharedRing)
    requires 1 <= n <= MAXFLR
    ensures ring.Mirrors() && ring.st.leader == Finished && ring.st.left == Upto(n)
    ensures ring.st.round <= 8 * n + 100
  {
    ring := new SharedRing(n);
    ring.WaitForFollowers();
    ring.LoopWithFollowers();
    ring.EndLoop();
    ReachedInv(n, ring.st);
    RoundsBounded(ring.st);
  }
}
