/** The second master: pending requests in ring buffers, no record of who has exited,
    another loop for the safety check, and a further sweep at the end of every turn. */
module BankerRing {
  import opened Vectors
  import opened BankerSpec
  import opened BankerSweep
  import opened BankerRuns
  import opened BankerGrants
  import opened Pigeonhole
  import opened BankerTables
  import opened RingQueue

  const MAX_RESOURCES: nat := 20
  const MAX_THREADS: nat := 100

  /** Threads that have exited hold nothing and need nothing. */
  predicate ExitedRowsZero(s: Sys) {
    forall i | 0 <= i < |s.exited| && s.exited[i] :: s.alloc[i] == Zeros(|s.avail|) == s.need[i]
  }

  /** Forgetting who has exited does not change whether all can complete. */
  lemma {:induction false} IgnoreExits(s: Sys, work: Vec, gone: set<nat>)
    requires AllocNonNeg(s) && |work| == |s.avail| && NonNeg(work)
    requires forall t | t in gone :: t < |s.alloc| && s.alloc[t] == Zeros(|s.avail|) == s.need[t]
    ensures CanComplete(s, work, gone) <==> CanComplete(s, work, {})
  {
    if gone != {} {
      var t :| t in gone;
      IgnoreExits(s, work, gone - {t});
      assert gone - {t} + {t} == gone;
      ZeroRowIrrelevant(s, work, gone - {t}, t);
    }
  }

  lemma SafeWithoutExits(s: Sys)
    requires AllocNonNeg(s) && NonNeg(s.avail) && ExitedRowsZero(s)
    ensures Safe(s) <==> CanComplete(s, s.avail, {})
  {
    IgnoreExits(s, s.avail, Exited(s));
  }

  /** One outstanding request per thread: the queue is shorter than the number of threads. */
  lemma {:induction false} PendingBound(n: nat, q: seq<Request>, others: set<nat>)
    requires forall k | 0 <= k < |q| :: q[k].from < n && q[k].from !in others
    requires forall a, b | 0 <= a < b < |q| :: q[a].from != q[b].from
    requires forall x | x in others :: x < n
    ensures |q| + |others| <= n
    decreases |q|
  {
    if q == [] {
      BelowBound(others, n);
    } else {
      PendingBound(n, q[1..], others + {q[0].from});
    }
  }

  /** The tentative tables of a safety check: what a grant of r would make of them. */
  class Trial {
    const thread: nat
    const work: array<int>
    const tempAllocate: array<int>
    const tempNeed: array<int>
    const finish: array<bool>
    var count: nat
    ghost var done: set<nat>

    ghost predicate Valid(g: Sys)
      reads this, work, tempAllocate, tempNeed, finish
    {
      && work.Length == tempAllocate.Length == tempNeed.Length == |g.avail|
      && finish.Length == |g.alloc| && thread < |g.alloc|
      && work != tempAllocate && work != tempNeed
      && tempAllocate[..] == g.alloc[thread] && tempNeed[..] == g.need[thread]
      && (forall h: nat | h < |g.alloc| :: finish[h] <==> h in done)
      && (forall h | h in done :: h < |g.alloc|)
      && count == |done|
    }

    constructor (T: Tables, r: Request)
      requires T.Valid() && Fits(T.S, r)
      ensures Valid(Grant(T.S, r)) && done == {} && work[..] == Grant(T.S, r).avail && thread == r.from
      ensures fresh(work) && fresh(tempAllocate) && fresh(tempNeed) && fresh(finish)
    {
      thread := r.from;
      work := new int[T.m](j requires 0 <= j < T.m && T.Valid() && |r.amt| == T.m reads T, T.Repr => T.AVAILABLE[j] - r.amt[j]);
      tempAllocate := new int[T.m](j requires 0 <= j < T.m && T.Valid() && |r.amt| == T.m && r.from < T.n reads T, T.Repr => T.ALLOC[r.from, j] + r.amt[j]);
      tempNeed := new int[T.m](j requires 0 <= j < T.m && T.Valid() && |r.amt| == T.m && r.from < T.n reads T, T.Repr => T.NEED[r.from, j] - r.amt[j]);
      finish := new bool[T.n](i => false);
      count := 0;
      done := {};
    }

    /** Whether unfinished thread i can finish with what is in `work`. */
    method CanFinish(T: Tables, i: nat, ghost g: Sys, r: Request) returns (b: bool)
      requires T.Valid() && Fits(T.S, r) && g == Grant(T.S, r) && Valid(g) && thread == r.from && i < T.n
      requires work !in T.Repr && tempAllocate !in T.Repr && tempNeed !in T.Repr
      ensures b <==> Leq(g.need[i], work[..])
    {
      b := true;
      for j := 0 to T.m
        invariant b && forall k | 0 <= k < j :: g.need[i][k] <= work[k]
      {
        if (if i == thread then tempNeed[j] else T.NEED[i, j]) > work[j] {
          b := false;
          assert g.need[i][j] > work[..][j];
          break;
        }
      }
    }

    /** Marks i finished and adds what it holds to `work`. */
    method Finish(T: Tables, i: nat, ghost g: Sys, r: Request)
      requires T.Valid() && Fits(T.S, r) && g == Grant(T.S, r) && Valid(g) && thread == r.from && i < T.n
      requires work !in T.Repr && !finish[i]
      modifies this, work, finish
      ensures Valid(g) && done == old(done) + {i} && count == old(count) + 1 && work[..] == Plus(old(work[..]), g.alloc[i])
    {
      finish[i] := true;
      count := count + 1;
      done := done + {i};
      for j := 0 to T.m
        invariant forall k | 0 <= k < T.m :: work[k] == old(work[k]) + (if k < j then g.alloc[i][k] else 0)
        modifies work
      {
        work[j] := work[j] + (if i == thread then tempAllocate[j] else T.ALLOC[i, j]);
      }
    }

    /** The shortcut: a thread that would need nothing more finishes before the search starts. */
    method Shortcut(T: Tables, ghost g: Sys, r: Request)
      requires T.Valid() && Fits(T.S, r) && g == Grant(T.S, r) && Valid(g) && thread == r.from
      requires AllocNonNeg(g) && NonNeg(g.avail) && work !in T.Repr && done == {} && work[..] == g.avail
      modifies this, work, finish
      ensures Valid(g)
      ensures CanComplete(g, work[..], done) <==> CanComplete(g, g.avail, {})
    {
      var allZero := true;
      for j := 0 to T.m
        invariant allZero && forall k | 0 <= k < j :: g.need[thread][k] <= 0
      {
        if tempNeed[j] > 0 {
          allZero := false;
          break;
        }
      }
      if allZero {
        GreedyChoice(g, g.avail, {}, thread);
        Finish(T, thread, g, r);
      }
    }

    /** One sweep over the threads, finishing each that fits as it is met. */
    method SweepThreads(T: Tables, ghost g: Sys, r: Request) returns (found: bool)
      requires T.Valid() && Fits(T.S, r) && g == Grant(T.S, r) && Valid(g) && thread == r.from
      requires AllocNonNeg(g) && work !in T.Repr && tempAllocate !in T.Repr && tempNeed !in T.Repr
      modifies this, work, finish
      ensures Valid(g) && old(count) <= count && (found ==> old(count) < count)
      ensures CanComplete(g, work[..], done) <==> old(CanComplete(g, work[..], done))
      ensures !found ==> forall i: nat | i < T.n && i !in done :: !Leq(g.need[i], work[..])
    {
      found := false;
      for i := 0 to T.n
        invariant Valid(g) && old(count) <= count && (found ==> old(count) < count)
        invariant CanComplete(g, work[..], done) <==> old(CanComplete(g, work[..], done))
        invariant !found ==> forall h: nat | h < i && h !in done :: !Leq(g.need[h], work[..])
      {
        if !finish[i] {
          var canFinish := CanFinish(T, i, g, r);
          if canFinish {
            GreedyChoice(g, work[..], done, i);
            Finish(T, i, g, r);
            found := true;
          }
        }
      }
    }

    /** The search: sweeps until one finishes nobody, or everybody has finished. */
    method Search(T: Tables, ghost g: Sys, r: Request) returns (b: bool)
      requires T.Valid() && Fits(T.S, r) && g == Grant(T.S, r) && Valid(g) && thread == r.from
      requires AllocNonNeg(g) && work !in T.Repr && tempAllocate !in T.Repr && tempNeed !in T.Repr
      modifies this, work, finish
      ensures b <==> old(CanComplete(g, work[..], done))
    {
      var found := true;
      BelowBound(done, T.n);
      while found
        invariant Valid(g) && count <= T.n
        invariant CanComplete(g, work[..], done) <==> old(CanComplete(g, work[..], done))
        invariant !found ==> count == T.n || forall i: nat | i < T.n && i !in done :: !Leq(g.need[i], work[..])
        decreases T.n - count, found
      {
        found := SweepThreads(T, g, r);
        BelowBound(done, T.n);
        found := found && count < T.n;
      }
      CountSaysAll(g, done, count);
      StuckMeansDone(g, work[..], done);
      b := count == T.n;
    }
  }

  lemma CountSaysAll(g: Sys, done: set<nat>, count: nat)
    requires count == |done| && forall h | h in done :: h < |g.alloc|
    ensures count == |g.alloc| <==> forall h: nat | h < |g.alloc| :: h in done
  {
    if h: nat :| h < |g.alloc| && h !in done {
      BelowBound(done + {h}, |g.alloc|);
    } else {
      FullSet(|g.alloc|, done);
    }
  }

  class RingMaster {
    const avoid: bool
    const T: Tables
    const pendingQueue: RingQueue<Request>
    var activeThreads: int

    ghost predicate Valid()
      reads this, T, T.Repr, pendingQueue, pendingQueue.queue
    {
      && T.Valid() && T.n <= MAX_THREADS && T.m <= MAX_RESOURCES
      && pendingQueue.Valid()
      && AllFit(T.S, pendingQueue.Contents)
      && activeThreads == T.n - |Exited(T.S)|
    }

    ghost function Now(): State
      reads T, pendingQueue
    {
      State(T.S, pendingQueue.Contents)
    }

    constructor (avoid: bool, lim: Limits)
      requires forall i | 0 <= i < |lim.max| :: |lim.max[i]| == |lim.total|
      requires |lim.max| <= MAX_THREADS && |lim.total| <= MAX_RESOURCES
      ensures Valid() && Now() == Start(lim) && this.avoid == avoid
      ensures fresh(T.Repr) && fresh(pendingQueue) && fresh(pendingQueue.queue)
    {
      this.avoid := avoid;
      T := new Tables(lim.total, lim.max);
      pendingQueue := new RingQueue();
      activeThreads := |lim.max|;
      new;
      assert Exited(T.S) == {};
    }

    /** Decides, on states where exited rows are zero and the request fits, the same as IsSafe does after a grant. */
    method IsSafeState(r: Request) returns (b: bool)
      requires T.Valid() && AllocNonNeg(T.S) && Genuine(T.S, r) && Enough(T.S, r) && ExitedRowsZero(T.S)
      ensures b <==> Safe(Grant(T.S, r))
    {
      ghost var g := Grant(T.S, r);
      var trial := new Trial(T, r);
      trial.Shortcut(T, g, r);
      b := trial.Search(T, g, r);
      SafeWithoutExits(g);
    }

    /** Decides one request and, if it is served, moves the resources. */
    method ServeOne(r: Request) returns (ok: bool)
      requires T.Valid() && AllocNonNeg(T.S) && Genuine(T.S, r) && ExitedRowsZero(T.S)
      modifies T.Repr
      ensures T.Valid() && (ok <==> CanServe(avoid, old(T.S), r))
      ensures T.S == if ok then Grant(old(T.S), r) else old(T.S)
    {
      ok := T.ResourceAvailable(r);
      if ok && avoid {
        ok := IsSafeState(r);
      }
      if ok {
        T.Shift(r.from, r.amt, 1);
        assert seq(T.m, j requires 0 <= j < T.m => 1 * r.amt[j]) == r.amt;
      }
    }

    /** Midway through a sweep: what is set aside and what is left will bring it to its goal. */
    ghost predicate Midway(aside: RingQueue<Request>, granted: seq<nat>, goal: Swept)
      reads T, T.Repr, pendingQueue, pendingQueue.queue, aside, aside.queue
    {
      && T.Valid() && pendingQueue.Valid() && aside.Valid()
      && aside != pendingQueue && aside.queue != pendingQueue.queue
      && |aside.Contents| + |pendingQueue.Contents| <= MAX_QUEUE_SIZE
      && Towards(T.S, pendingQueue.Contents, aside.Contents, granted, goal)
    }

    ghost predicate Towards(s: Sys, q: seq<Request>, aside: seq<Request>, granted: seq<nat>, goal: Swept) {
      AllocNonNeg(s) && ExitedRowsZero(s) && AllGenuine(s, q) && goal == Ahead(s, q, aside, granted)
    }

    ghost function Ahead(s: Sys, q: seq<Request>, aside: seq<Request>, granted: seq<nat>): Swept
      requires AllGenuine(s, q)
    {
      var w := Sweep(avoid, s, q);
      Swept(w.sys, aside + w.left, granted + w.granted)
    }

    lemma AheadStep(s: Sys, q: seq<Request>, aside: seq<Request>, granted: seq<nat>, goal: Swept)
      requires Towards(s, q, aside, granted, goal) && q != []
      ensures if CanServe(avoid, s, q[0]) then Towards(Grant(s, q[0]), q[1..], aside, granted + [q[0].from], goal)
              else Towards(s, q[1..], aside + [q[0]], granted, goal)
    {
    }

    method SweepOne(aside: RingQueue<Request>, granted: seq<nat>, ghost goal: Swept) returns (granted': seq<nat>)
      requires pendingQueue.Contents != [] && Midway(aside, granted, goal)
      modifies T.Repr, pendingQueue, aside, aside.queue
      ensures Midway(aside, granted', goal) && T.S.exited == old(T.S.exited)
      ensures |pendingQueue.Contents| < |old(pendingQueue.Contents)|
    {
      ghost var q, before := pendingQueue.Contents, T.S;
      AheadStep(T.S, q, aside.Contents, granted, goal);
      var _, pending := pendingQueue.Dequeue();
      assert q[0] == pending && q[1..] == pendingQueue.Contents;
      var ok := ServeOne(pending);
      if ok {
        granted' := granted + [pending.from];
        assert Towards(T.S, pendingQueue.Contents, aside.Contents, granted', goal);
      } else {
        assert T.S == before && Towards(T.S, pendingQueue.Contents, aside.Contents + [pending], granted, goal);
        var room := aside.Enqueue(pending);
        granted' := granted;
      }
    }

    /** A sweep through a second ring: what is not granted is set aside, then put back. */
    method SweepQueue() returns (granted: seq<nat>)
      requires Valid() && AllocNonNeg(T.S) && AllGenuine(T.S, pendingQueue.Contents) && ExitedRowsZero(T.S)
      modifies T.Repr, pendingQueue, pendingQueue.queue
      ensures Valid()
      ensures Swept(T.S, pendingQueue.Contents, granted) == old(Sweep(avoid, T.S, pendingQueue.Contents))
    {
      ghost var goal := Sweep(avoid, T.S, pendingQueue.Contents);
      var tempQueue := new RingQueue<Request>();
      granted := [];
      while pendingQueue.size > 0
        invariant Midway(tempQueue, granted, goal) && T.S.exited == old(T.S.exited)
        invariant fresh(tempQueue) && fresh(tempQueue.queue)
        decreases |pendingQueue.Contents|
      {
        granted := SweepOne(tempQueue, granted, goal);
      }
      PutBack(tempQueue, goal.left);
      assert Exited(T.S) == old(Exited(T.S));
    }

    method PutBack(tempQueue: RingQueue<Request>, ghost left: seq<Request>)
      requires pendingQueue.Valid() && tempQueue.Valid() && tempQueue != pendingQueue && tempQueue.queue != pendingQueue.queue
      requires pendingQueue.Contents == [] && tempQueue.Contents == left
      modifies pendingQueue, pendingQueue.queue, tempQueue
      ensures pendingQueue.Valid() && pendingQueue.Contents == left
    {
      while tempQueue.size > 0
        invariant pendingQueue.Valid() && tempQueue.Valid()
        invariant pendingQueue.Contents + tempQueue.Contents == left
        decreases |tempQueue.Contents|
      {
        var _, pending := tempQueue.Dequeue();
        var room := pendingQueue.Enqueue(pending);
      }
    }

    /** Applies the releases of a request, then queues what it asks for. */
    method Take(i: nat, req: Vec, ghost lim: Limits)
      requires Valid() && Sound(avoid, lim, Now()) && Legal(Now(), Ask(i, req))
      modifies T.Repr, pendingQueue, pendingQueue.queue
      ensures Valid() && Now() == old(Register(Now(), i, req))
    {
      ghost var st := Now();
      T.Shift(i, Negatives(req), 1);
      assert seq(T.m, j requires 0 <= j < T.m => 1 * Negatives(req)[j]) == Negatives(req);
      assert Exited(T.S) == Exited(st.sys);
      if exists j | 0 <= j < |req| :: req[j] > 0 {
        PendingBound(T.n, st.queue, {i});
        var room := pendingQueue.Enqueue(Request(i, Positives(req)));
      }
    }

    method Leave(i: nat)
      requires Valid() && i < T.n && !T.S.exited[i]
      modifies T.Repr, this`activeThreads
      ensures Valid() && T.S == Quit(old(T.S), i)
      ensures activeThreads == 0 <==> AllExited(T.S)
    {
      assert i !in Exited(T.S);
      activeThreads := activeThreads - 1;
      T.Release(i);
      assert Exited(T.S) == old(Exited(T.S)) + {i};
      AllExitedCount(T.S);
    }

    /** The sweep at the end of a turn, skipped when nothing is pending. */
    method FinalSweep(ghost lim: Limits) returns (granted: seq<nat>)
      requires Valid() && Sound(avoid, lim, Now())
      modifies T.Repr, pendingQueue, pendingQueue.queue
      ensures Valid() && Now() == old(Settle(avoid, Now()))
      ensures granted == old(Sweep(avoid, T.S, pendingQueue.Contents).granted)
    {
      SoundIsGenuine(avoid, lim, Now());
      granted := [];
      if pendingQueue.size > 0 {
        granted := SweepQueue();
      }
    }

    /** A request: release, queue, sweep if something was queued, and sweep again. */
    method TurnAsk(i: nat, req: Vec, ghost lim: Limits) returns (granted: seq<nat>, second: seq<nat>)
      requires Valid() && Sound(avoid, lim, Now()) && Legal(Now(), Ask(i, req))
      modifies T.Repr, pendingQueue, pendingQueue.queue
      ensures Valid() && Now() == old(Settle(avoid, Register(Now(), i, req)))
      ensures Additional(req) ==> second == []
      ensures granted + second == old(Woken(avoid, Now(), Ask(i, req)))
    {
      RegisterKeepsSound(avoid, lim, Now(), i, req);
      SettleTwice(avoid, lim, Register(Now(), i, req));
      Take(i, req, lim);
      granted := [];
      if exists j | 0 <= j < |req| :: req[j] > 0 {
        granted := FinalSweep(lim);
      }
      second := FinalSweep(lim);
    }

    method TurnStop(i: nat, ghost lim: Limits) returns (granted: seq<nat>)
      requires Valid() && Sound(avoid, lim, Now()) && Legal(Now(), Stop(i))
      modifies T.Repr, pendingQueue, pendingQueue.queue, this`activeThreads
      ensures Valid() && Now() == old(Step(avoid, Now(), Stop(i)))
      ensures granted == old(Woken(avoid, Now(), Stop(i)))
      ensures activeThreads == 0 <==> AllExited(T.S)
    {
      QuitKeepsSound(avoid, lim, Now(), i);
      Leave(i);
      LastLeaves(avoid, lim, Now());
      granted := FinalSweep(lim);
    }

    /** One turn of the second master: it does what the first one does, and the sweep that
        follows an additional request's own sweep never grants anything. */
    method Turn(e: Event, ghost lim: Limits) returns (granted: seq<nat>, second: seq<nat>)
      requires Valid() && Inv(avoid, lim, Now()) && Legal(Now(), e)
      modifies T.Repr, pendingQueue, pendingQueue.queue, this`activeThreads
      ensures Valid() && Inv(avoid, lim, Now())
      ensures Now() == old(Step(avoid, Now(), e))
      ensures e.Ask? && Additional(e.req) ==> second == []
      ensures granted + second == old(Woken(avoid, Now(), e))
      ensures RightTurn(avoid, old(Received(Now(), e)), Now(), granted + second)
      ensures e.Stop? ==> (activeThreads == 0 <==> AllExited(T.S))
    {
      StepInv(avoid, lim, Now(), e);
      TurnIsRight(avoid, lim, Now(), e);
      granted := [];
      match e
      case Ask(i, req) => granted, second := TurnAsk(i, req, lim);
      case Stop(i) => second := TurnStop(i, lim);
    }
  }

  lemma SettleTwice(avoid: bool, lim: Limits, st: State)
    requires QueueFits(st) && Sound(avoid, lim, st)
    ensures var t := Settle(avoid, st);
            Sound(avoid, lim, t) && Settle(avoid, t) == t && Sweep(avoid, t.sys, t.queue).granted == []
  {
    SoundIsGenuine(avoid, lim, st);
    SettleInv(avoid, lim, st);
    SecondSweepGrantsNothing(avoid, st.sys, st.queue);
  }

  /** When the last thread has left, nothing is pending, so a sweep would do nothing. */
  lemma LastLeaves(avoid: bool, lim: Limits, st: State)
    requires QueueFits(st) && Sound(avoid, lim, st)
    ensures AllExited(st.sys) ==> Settle(avoid, st) == st
  {
  }
}
