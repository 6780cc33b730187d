/** The master thread over its global arrays. */
module BankerMaster {
  import opened Vectors
  import opened BankerSpec
  import opened BankerSweep
  import opened BankerTables
  import opened BankerRuns
  import opened RequestList
  import opened BankerGrants

  class Master {
    const avoid: bool
    const T: Tables
    const REQ: array<int>
    const exited: array<bool>
    const Q: RQ
    var N: nat

    /** The arrays agree with the abstract state T.S. */
    ghost predicate Tied()
      reads T, T.Repr, exited
    {
      T.Valid() && exited[..] == T.S.exited && REQ.Length == T.m && REQ !in T.Repr
    }

    ghost predicate Valid()
      reads this, T, T.Repr, exited, Q, Q.owned
    {
      && Tied()
      && Q.Valid()
      && AllFit(T.S, Q.Contents())
      && N == T.n - |Exited(T.S)|
    }

    ghost function Now(): State
      reads T, Q
      requires Q.chain != []
    {
      State(T.S, Q.Contents())
    }

    constructor (avoid: bool, lim: Limits)
      requires forall i | 0 <= i < |lim.max| :: |lim.max[i]| == |lim.total|
      ensures Valid() && Now() == Start(lim) && this.avoid == avoid
      ensures fresh(T.Repr) && fresh(REQ) && fresh(exited) && fresh(Q) && fresh(Q.owned)
    {
      this.avoid := avoid;
      T := new Tables(lim.total, lim.max);
      REQ := new int[|lim.total|](j => 0);
      exited := new bool[|lim.max|](i => false);
      Q := new RQ();
      N := |lim.max|;
      new;
      assert Exited(T.S) == {};
    }

    /** Applies the negative entries of REQ and zeroes them; says whether a positive one is left. */
    method RegisterRequest(i: nat) returns (flag: bool)
      requires Tied() && i < T.n
      modifies T.Repr, REQ
      ensures Tied()
      ensures T.S == Move(old(T.S), i, Negatives(old(REQ[..])))
      ensures REQ[..] == Positives(old(REQ[..]))
      ensures flag <==> Additional(old(REQ[..]))
    {
      flag := false;
      ghost var req, s := REQ[..], T.S;
      ghost var d := Negatives(req);
      for j := 0 to T.m
        invariant forall k | 0 <= k < j :: REQ[k] == Positives(req)[k]
        invariant forall k | j <= k < T.m :: REQ[k] == req[k]
        invariant forall k | 0 <= k < T.m :: T.AVAILABLE[k] == s.avail[k] - (if k < j then d[k] else 0)
        invariant forall h, k | 0 <= h < T.n && 0 <= k < T.m ::
          && T.ALLOC[h, k] == s.alloc[h][k] + (if h == i && k < j then d[k] else 0)
          && T.NEED[h, k] == s.need[h][k] - (if h == i && k < j then d[k] else 0)
        invariant flag <==> exists k | 0 <= k < j :: req[k] > 0
      {
        if REQ[j] < 0 {
          T.ALLOC[i, j] := T.ALLOC[i, j] + REQ[j];
          T.NEED[i, j] := T.NEED[i, j] - REQ[j];
          T.AVAILABLE[j] := T.AVAILABLE[j] - REQ[j];
          REQ[j] := 0;
        } else if REQ[j] > 0 {
          flag := true;
        }
      }
      T.S := Move(s, i, d);
    }

    /** The first unfinished thread whose need fits in WORK. */
    method FirstFitting(WORK: array<int>, FINISH: array<bool>, ghost done: set<nat>) returns (found: bool, i: nat)
      requires Tied() && WORK.Length == T.m && FINISH.Length == T.n
      requires forall h: nat | h < T.n :: FINISH[h] <==> h in done
      ensures found ==> i < T.n && i !in done && Leq(T.S.need[i], WORK[..])
      ensures !found ==> forall h: nat | h < T.n && h !in done :: !Leq(T.S.need[h], WORK[..])
    {
      found, i := false, 0;
      while i < T.n && !found
        invariant i <= T.n
        invariant !found ==> forall h: nat | h < i && h !in done :: !Leq(T.S.need[h], WORK[..])
        invariant found ==> i < T.n && i !in done && Leq(T.S.need[i], WORK[..])
        decreases T.n - i, !found
      {
        if !FINISH[i] {
          found := T.FitsIn(i, WORK);
        }
        if !found {
          i := i + 1;
        }
      }
    }

    /** One round of the check: finishes the first thread that fits, if there is one. */
    method FinishOne(WORK: array<int>, FINISH: array<bool>, ghost done: set<nat>)
      returns (found: bool, ghost t: nat, ghost done': set<nat>)
      requires Tied() && WORK.Length == T.m && FINISH.Length == T.n && WORK !in T.Repr && FINISH != exited
      requires forall h: nat | h < T.n :: FINISH[h] <==> h in done
      modifies WORK, FINISH
      ensures forall h: nat | h < T.n :: FINISH[h] <==> h in done'
      ensures CanComplete(T.S, WORK[..], done') ==> CanComplete(T.S, old(WORK[..]), done)
      ensures AllocNonNeg(T.S) && CanComplete(T.S, old(WORK[..]), done) ==> CanComplete(T.S, WORK[..], done')
      ensures !found ==> done' == done
      ensures !found ==> (CanComplete(T.S, WORK[..], done') <==> forall h: nat | h < T.n :: h in done')
      ensures found ==> t < T.n && t !in done && done' == done + {t}
    {
      var i;
      found, i := FirstFitting(WORK, FINISH, done);
      t := i;
      if found {
        GreedyChoice(T.S, WORK[..], done, i);
        T.Reclaim(i, WORK);
        FINISH[i] := true;
        done' := done + {i};
      } else {
        StuckMeansDone(T.S, WORK[..], done);
        done' := done;
      }
    }

    method AllFinished(FINISH: array<bool>, ghost done: set<nat>) returns (flag: bool)
      requires FINISH.Length == T.n && forall h: nat | h < T.n :: FINISH[h] <==> h in done
      ensures flag <==> forall h: nat | h < T.n :: h in done
    {
      flag := true;
      for i := 0 to T.n
        invariant flag && forall h: nat | h < i :: h in done
      {
        if !FINISH[i] {
          flag := false;
          break;
        }
      }
    }

    /** True exactly when some completion order of the threads that have not exited exists. */
    method IsSafe() returns (flag: bool)
      requires Tied()
      ensures flag ==> Safe(T.S)
      ensures AllocNonNeg(T.S) && Safe(T.S) ==> flag
    {
      var WORK := T.CopyOfAvailable();
      var FINISH := new bool[T.n](i requires 0 <= i < T.n reads this, exited requires exited.Length == T.n => exited[i]);
      ghost var done: set<nat> := Exited(T.S);
      ghost var left: set<nat> := set h: nat | h < T.n && h !in done;
      var found := true;
      while found
        invariant Tied()
        invariant forall h: nat | h < T.n :: FINISH[h] <==> h in done
        invariant forall h: nat :: h in left <==> h < T.n && h !in done
        invariant CanComplete(T.S, WORK[..], done) ==> Safe(T.S)
        invariant AllocNonNeg(T.S) && Safe(T.S) ==> CanComplete(T.S, WORK[..], done)
        invariant !found ==> (CanComplete(T.S, WORK[..], done) <==> forall h: nat | h < T.n :: h in done)
        decreases left, found
      {
        ghost var t;
        found, t, done := FinishOne(WORK, FINISH, done);
        left := if found then left - {t} else left;
      }
      flag := AllFinished(FINISH, done);
    }

    /** Tries the grant on the tables, checks safety, and puts the tables back as they were. */
    method SafeToAllocate(r: Request) returns (s: bool)
      requires Tied() && AllocNonNeg(T.S) && Genuine(T.S, r)
      modifies T.Repr
      ensures Tied() && T.S == old(T.S)
      ensures s <==> Safe(Grant(T.S, r))
    {
      ghost var before := T.S;
      T.Shift(r.from, r.amt, 1);
      assert seq(T.m, j requires 0 <= j < T.m => 1 * r.amt[j]) == r.amt;
      s := IsSafe();
      T.Shift(r.from, r.amt, -1);
      MoveBack(before, r.from, r.amt);
    }

    method CanServeNow(r: Request) returns (b: bool)
      requires Tied() && AllocNonNeg(T.S) && Genuine(T.S, r)
      modifies T.Repr
      ensures Tied() && T.S == old(T.S)
      ensures b <==> CanServe(avoid, T.S, r)
    {
      b := T.ResourceAvailable(r);
      if b && avoid {
        b := SafeToAllocate(r);
      }
    }

    /** Grants and unlinks the request q after node p, if it can be served. */
    method ServeNode(p: Node, q: Node, ghost k: nat) returns (ok: bool)
      requires Tied() && Q.Whole()
      requires k + 1 < |Q.chain| && p == Q.chain[k] && q == Q.chain[k + 1]
      requires AllocNonNeg(T.S) && Genuine(T.S, q.item)
      modifies T.Repr, p, Q`chain
      ensures Tied() && Q.Whole()
      ensures ok <==> CanServe(avoid, old(T.S), q.item)
      ensures ok ==> T.S == Grant(old(T.S), q.item) && Q.chain == old(Q.chain[..k + 1] + Q.chain[k + 2..])
      ensures ok ==> p.next == if k + 1 < |Q.chain| then Q.chain[k + 1] else null
      ensures !ok ==> T.S == old(T.S) && Q.chain == old(Q.chain) && p.next == old(p.next)
    {
      ok := CanServeNow(q.item);
      if ok {
        T.Shift(q.item.from, q.item.amt, 1);
        assert seq(T.m, j requires 0 <= j < T.m => 1 * q.item.amt[j]) == q.item.amt;
        Q.Unlink(p, k);
      }
    }

    /** Midway through a pass: p is the last node kept, q the one to look at, and what
        remains will bring the pass to its goal. */
    ghost predicate Walking(p: Node, q: Node?, k: nat, granted: seq<nat>, goal: Swept)
      reads this, T, T.Repr, exited, Q, Q.owned
    {
      && Tied() && Q.Whole()
      && k < |Q.chain| && p == Q.chain[k]
      && q == (if k + 1 < |Q.chain| then Q.chain[k + 1] else null)
      && AllocNonNeg(T.S) && AllGenuine(T.S, Items(Q.chain[k + 1..]))
      && goal == Resumed(T.S, Q.chain, k, granted)
    }

    method WalkOne(p: Node, q: Node, ghost k: nat, granted: seq<nat>, ghost goal: Swept)
      returns (p': Node, q': Node?, ghost k': nat, granted': seq<nat>)
      requires Walking(p, q, k, granted, goal)
      modifies T.Repr, p, Q`chain
      ensures Walking(p', q', k', granted', goal)
      ensures |Q.chain| - k' < old(|Q.chain|) - k
    {
      ResumedStep(T.S, Q.chain, k, granted);
      var ok := ServeNode(p, q, k);
      if ok {
        p', q', k', granted' := p, p.next, k, granted + [q.item.from];
      } else {
        OnlyLastEnds(Q.chain, k + 1);
        p', q', k', granted' := q, q.next, k + 1, granted;
      }
    }

    /** The pass proper: walks p, q down the list, unlinking each request it grants. */
    method Pass() returns (granted: seq<nat>)
      requires Tied() && Q.Whole()
      requires AllocNonNeg(T.S) && AllGenuine(T.S, Q.Contents())
      modifies T.Repr, Q`chain, Q.owned
      ensures Tied() && Q.Whole()
      ensures Swept(T.S, Q.Contents(), granted) == old(Sweep(avoid, T.S, Q.Contents()))
    {
      granted := [];
      ghost var goal := Sweep(avoid, T.S, Q.Contents());
      ghost var k := 0;
      var p := Q.F;
      var q := p.next;
      OnlyLastEnds(Q.chain, 0);
      while q != null
        invariant Walking(p, q, k, granted, goal)
        decreases |Q.chain| - k
      {
        p, q, k, granted := WalkOne(p, q, k, granted, goal);
      }
      assert Items(Q.chain[k + 1..]) == [] && Q.chain[1..k + 1] == Q.chain[1..];
    }

    /** Serves the whole list once; `granted` lists the threads signalled. */
    method ServeRequest() returns (granted: seq<nat>)
      requires Valid() && AllocNonNeg(T.S) && AllGenuine(T.S, Q.Contents())
      modifies T.Repr, Q, Q.owned
      ensures Valid() && Q.owned == old(Q.owned)
      ensures Swept(T.S, Q.Contents(), granted) == old(Sweep(avoid, T.S, Q.Contents()))
    {
      if Q.B == null {
        granted := [];
        return;
      }
      granted := Pass();
      assert Exited(T.S) == old(Exited(T.S));
      Q.RepairTail();
    }

    /** What the pass will have done in the end, seen from after k nodes were kept. */
    ghost function Resumed(s: Sys, chain: seq<Node>, k: nat, granted: seq<nat>): Swept
      requires k < |chain| && AllFit(s, Items(chain[k + 1..]))
    {
      var w := Sweep(avoid, s, Items(chain[k + 1..]));
      Swept(w.sys, Items(chain[1..k + 1]) + w.left, granted + w.granted)
    }

    lemma ResumedStep(s: Sys, chain: seq<Node>, k: nat, granted: seq<nat>)
      requires k + 1 < |chain| && AllocNonNeg(s) && AllGenuine(s, Items(chain[k + 1..]))
      ensures var r := chain[k + 1].item;
              Genuine(s, r) &&
              if CanServe(avoid, s, r) then
                var shorter := chain[..k + 1] + chain[k + 2..];
                && AllocNonNeg(Grant(s, r)) && AllGenuine(Grant(s, r), Items(shorter[k + 1..]))
                && Resumed(s, chain, k, granted) == Resumed(Grant(s, r), shorter, k, granted + [r.from])
              else
                && AllGenuine(s, Items(chain[k + 2..]))
                && Resumed(s, chain, k, granted) == Resumed(s, chain, k + 1, granted)
    {
      var rest := Items(chain[k + 1..]);
      var r := chain[k + 1].item;
      assert rest[0] == r && rest[1..] == Items(chain[k + 2..]);
      if CanServe(avoid, s, r) {
        var shorter := chain[..k + 1] + chain[k + 2..];
        assert shorter[k + 1..] == chain[k + 2..] && shorter[1..k + 1] == chain[1..k + 1];
        var w := Sweep(avoid, Grant(s, r), rest[1..]);
        assert granted + ([r.from] + w.granted) == granted + [r.from] + w.granted;
      } else {
        var w := Sweep(avoid, s, rest[1..]);
        assert Items(chain[1..k + 2]) == Items(chain[1..k + 1]) + [r];
        assert Items(chain[1..k + 1]) + ([r] + w.left) == Items(chain[1..k + 2]) + w.left;
      }
    }

    method TakeRequest(i: nat, req: Vec)
      requires Valid() && i < T.n && |req| == T.m
      modifies T.Repr, REQ, Q, Q.owned
      ensures Valid() && fresh(Q.owned - old(Q.owned))
      ensures Now() == old(Register(Now(), i, req))
    {
      for j := 0 to T.m
        invariant REQ[..j] == req[..j]
        modifies REQ
      {
        REQ[j] := req[j];
      }
      assert REQ[..] == req;
      var flag := RegisterRequest(i);
      assert Exited(T.S) == old(Exited(T.S));
      if flag {
        Q.Enqueue(Request(i, REQ[..]));
      }
    }

    method TakeQuit(i: nat)
      requires Valid() && i < T.n && !exited[i]
      modifies T.Repr, exited, this`N
      ensures Valid()
      ensures T.S == Quit(old(T.S), i)
      ensures N == 0 <==> AllExited(T.S)
    {
      AllExitedCount(T.S);
      assert i !in Exited(T.S);
      N := N - 1;
      exited[i] := true;
      T.Release(i);
      assert Exited(T.S) == old(Exited(T.S)) + {i};
      AllExitedCount(T.S);
    }

    method Serve(ghost lim: Limits) returns (granted: seq<nat>)
      requires Valid() && Sound(avoid, lim, Now())
      modifies T.Repr, Q, Q.owned
      ensures Valid() && Q.owned == old(Q.owned)
      ensures Now() == old(Settle(avoid, Now()))
      ensures granted == old(Sweep(avoid, T.S, Q.Contents()).granted)
    {
      SoundIsGenuine(avoid, lim, Now());
      granted := ServeRequest();
    }

    method TurnAsk(i: nat, req: Vec, ghost lim: Limits) returns (granted: seq<nat>)
      requires Valid() && Sound(avoid, lim, Now()) && Legal(Now(), Ask(i, req))
      modifies T.Repr, REQ, exited, Q, Q.owned, this`N
      ensures Valid() && fresh(Q.owned - old(Q.owned))
      ensures Now() == old(Step(avoid, Now(), Ask(i, req))) && granted == old(Woken(avoid, Now(), Ask(i, req)))
    {
      RegisterKeepsSound(avoid, lim, Now(), i, req);
      TakeRequest(i, req);
      granted := Serve(lim);
    }

    method TurnStop(i: nat, ghost lim: Limits) returns (over: bool, granted: seq<nat>)
      requires Valid() && Sound(avoid, lim, Now()) && Legal(Now(), Stop(i))
      modifies T.Repr, REQ, exited, Q, Q.owned, this`N
      ensures Valid() && fresh(Q.owned - old(Q.owned))
      ensures Now() == old(Step(avoid, Now(), Stop(i))) && granted == old(Woken(avoid, Now(), Stop(i)))
      ensures over <==> AllExited(T.S)
    {
      QuitKeepsSound(avoid, lim, Now(), i);
      TakeQuit(i);
      over, granted := N == 0, [];
      if !over {
        granted := Serve(lim);
      }
    }

    /** One turn of the master's loop: takes one message, then tries the pending requests, and signals the
        threads that are granted what they asked. */
    method Turn(e: Event, ghost lim: Limits) returns (over: bool, granted: seq<nat>)
      requires Valid() && Inv(avoid, lim, Now()) && Legal(Now(), e)
      modifies T.Repr, REQ, exited, Q, Q.owned, this`N
      ensures Valid() && fresh(Q.owned - old(Q.owned))
      ensures Now() == old(Step(avoid, Now(), e))
      ensures Inv(avoid, lim, Now())
      ensures granted == old(Woken(avoid, Now(), e)) && RightTurn(avoid, old(Received(Now(), e)), Now(), granted)
      ensures over <==> e.Stop? && AllExited(T.S)
    {
      StepInv(avoid, lim, Now(), e);
      TurnIsRight(avoid, lim, Now(), e);
      over := false;
      match e
      case Ask(i, req) => granted := TurnAsk(i, req, lim);
      case Stop(i) => over, granted := TurnStop(i, lim);
    }

    method TakeNext(events: seq<Event>, k: nat, ghost lim: Limits, ghost goal: State) returns (over: bool)
      requires Valid() && k < |events| && Coming(avoid, lim, Now(), events[k..], goal)
      modifies T.Repr, REQ, exited, Q, Q.owned, this`N
      ensures Valid() && fresh(Q.owned - old(Q.owned))
      ensures Coming(avoid, lim, Now(), events[k + 1..], goal)
      ensures over ==> events[k + 1..] == []
    {
      ComingStep(avoid, lim, Now(), events, k, goal);
      ghost var st := Step(avoid, Now(), events[k]);
      ghost var granted;
      over, granted := Turn(events[k], lim);
      NothingAfterTheEnd(avoid, st, events[k + 1..]);
    }

    /** The master's loop on a whole run. */
    method Loop(events: seq<Event>, ghost lim: Limits)
      requires Valid() && Inv(avoid, lim, Now()) && LegalRun(avoid, Now(), events)
      modifies T.Repr, REQ, exited, Q, Q.owned, this`N
      ensures Valid() && Inv(avoid, lim, Now())
      ensures Now() == old(Run(avoid, Now(), events))
    {
      ghost var goal := Run(avoid, Now(), events);
      assert events[0..] == events;
      var k, over := 0, false;
      while k < |events| && !over
        invariant k <= |events|
        invariant Valid() && fresh(Q.owned - old(Q.owned))
        invariant Coming(avoid, lim, Now(), events[k..], goal)
        invariant over ==> events[k..] == []
        decreases |events| - k
      {
        over := TakeNext(events, k, lim, goal);
        k := k + 1;
      }
      assert events[k..] == [];
    }
  }

  /** From st the remaining events lead to goal. */
  ghost predicate Coming(avoid: bool, lim: Limits, st: State, rest: seq<Event>, goal: State) {
    Inv(avoid, lim, st) && LegalRun(avoid, st, rest) && Run(avoid, st, rest) == goal
  }

  lemma ComingStep(avoid: bool, lim: Limits, st: State, events: seq<Event>, k: nat, goal: State)
    requires k < |events| && Coming(avoid, lim, st, events[k..], goal)
    ensures Legal(st, events[k])
    ensures Coming(avoid, lim, Step(avoid, st, events[k]), events[k + 1..], goal)
  {
    assert events[k..][0] == events[k] && events[k..][1..] == events[k + 1..];
    StepInv(avoid, lim, st, events[k]);
  }
}
