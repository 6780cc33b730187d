/** Whole runs of the scheduler: they end, the books balance, and nobody waits long for a turn. */
module SchedRuns {
  import opened Pigeonhole
  import opened SchedSpec

  // ----- every run ends

  /** Work in the bursts after this one, with one for each. */
  function After(j: Job, burst: nat): nat
    decreases |j.cpu| - burst
  {
    if burst + 1 >= |j.cpu| then 0 else j.cpu[burst + 1] + 1 + After(j, burst + 1)
  }

  /** Falls with each event of the process and each turn it gets. */
  function Left(j: Job, x: Proc): nat {
    match x.phase
    case Finished(_) => 0
    case Ready(_) => 3 * (x.rest + After(j, x.burst)) + 2
    case Running(_) => if x.rest > 0 then 3 * (x.rest + After(j, x.burst)) + 3 else 3 * After(j, x.burst) + 1
    case _ => 3 * (x.rest + After(j, x.burst)) + 3
  }

  function TotalLeft(jobs: seq<Job>, procs: seq<Proc>): nat
    requires |procs| == |jobs|
  {
    if jobs == [] then 0 else Left(jobs[0], procs[0]) + TotalLeft(jobs[1..], procs[1..])
  }

  lemma {:induction false} TotalLeftUpdate(jobs: seq<Job>, procs: seq<Proc>, p: nat, x: Proc)
    requires |procs| == |jobs| && p < |jobs|
    ensures TotalLeft(jobs, procs[p := x]) == TotalLeft(jobs, procs) - Left(jobs[p], procs[p]) + Left(jobs[p], x)
  {
    if p == 0 {
      assert procs[p := x][1..] == procs[1..];
    } else {
      assert procs[p := x][1..] == procs[1..][p - 1 := x];
      TotalLeftUpdate(jobs[1..], procs[1..], p - 1, x);
    }
  }

  lemma HandleProgress(jobs: seq<Job>, s: State, p: nat)
    requires Inv(jobs, s) && Due(s, p)
    ensures Enabled(jobs, s, p)
    ensures TotalLeft(jobs, Handle(jobs, s, p).procs) < TotalLeft(jobs, s.procs)
  {
    var t := Handle(jobs, s, p);
    assert Settled(jobs[p], s.procs[p]);
    TotalLeftUpdate(jobs, s.procs, p, t.procs[p]);
    assert t.procs == s.procs[p := t.procs[p]];
  }

  lemma DispatchProgress(jobs: seq<Job>, q: nat, s: State)
    requires Books(jobs, s) && Placed(s) && q > 0
    ensures TotalLeft(jobs, Dispatch(q, s).procs) <= TotalLeft(jobs, s.procs)
  {
    if s.cpu == FREE && s.queue != [] {
      var t := Dispatch(q, s);
      var p := s.queue[0];
      TotalLeftUpdate(jobs, s.procs, p, t.procs[p]);
    }
  }

  /** Each step brings the end nearer. */
  lemma StepProgress(jobs: seq<Job>, q: nat, s: State, p: nat)
    requires Inv(jobs, s) && Due(s, p) && q > 0
    ensures Enabled(jobs, s, p) && TotalLeft(jobs, Step(jobs, q, s, p).procs) < TotalLeft(jobs, s.procs)
  {
    HandleProgress(jobs, s, p);
    HandleClock(jobs, s, p);
    DispatchProgress(jobs, q, Handle(jobs, s, p));
  }

  predicate Over(s: State) {
    forall p | 0 <= p < |s.procs| :: !Pending(s.procs[p])
  }

  lemma {:induction false} LeastPending(procs: seq<Proc>, k: nat) returns (p: nat)
    requires k <= |procs| && exists o :: 0 <= o < k && Pending(procs[o])
    ensures p < k && Pending(procs[p])
    ensures forall o | 0 <= o < k && Pending(procs[o]) :: procs[p].phase.t <= procs[o].phase.t
  {
    if (exists o :: 0 <= o < k - 1 && Pending(procs[o])) {
      p := LeastPending(procs, k - 1);
      if Pending(procs[k - 1]) && procs[k - 1].phase.t < procs[p].phase.t {
        p := k - 1;
      }
    } else {
      p := k - 1;
    }
  }

  /** A run: processes whose events are taken, in order. */
  ghost predicate RunsFrom(jobs: seq<Job>, q: nat, s: State, picks: seq<nat>)
    decreases |picks|
  {
    picks != [] ==>
      Enabled(jobs, s, picks[0]) && RunsFrom(jobs, q, Step(jobs, q, s, picks[0]), picks[1..])
  }

  ghost function Outcome(jobs: seq<Job>, q: nat, s: State, picks: seq<nat>): State
    requires RunsFrom(jobs, q, s, picks)
    decreases |picks|
  {
    if picks == [] then s else Outcome(jobs, q, Step(jobs, q, s, picks[0]), picks[1..])
  }

  /** What has come of everybody when no event is left. */
  ghost predicate Done(jobs: seq<Job>, s: State) {
    && |s.procs| == |jobs| && s.queue == [] && s.cpu == FREE
    && (forall p | 0 <= p < |jobs| ::
          var x := s.procs[p];
          && x.phase.Finished?
          && x.wait == (x.phase.t - jobs[p].arrival) - (Sum(jobs[p].cpu) + Sum(jobs[p].io)))
    && s.idle == s.now - AllCpu(jobs)
  }

  function AllCpu(jobs: seq<Job>): nat {
    if jobs == [] then 0 else Sum(jobs[0].cpu) + AllCpu(jobs[1..])
  }

  lemma {:induction false} FinishedCpu(jobs: seq<Job>, procs: seq<Proc>)
    requires |procs| == |jobs| && forall p | 0 <= p < |jobs| :: procs[p].burst == |jobs[p].cpu|
    ensures TotalCpu(jobs, procs) == AllCpu(jobs)
  {
    if jobs != [] {
      FinishedCpu(jobs[1..], procs[1..]);
    }
  }

  lemma BusyIsNotOver(s: State)
    requires Placed(s)
    ensures s.cpu == FREE || !Over(s)
  {
    if s.cpu != FREE {
      assert Pending(s.procs[s.cpu]);
    }
  }

  /** When no event is left, every process has finished; the wait added up turn by turn is its turnaround
      less its bursts, and the idle time added up event by event is the final time less all CPU bursts. */
  lemma OverMeansDone(jobs: seq<Job>, s: State)
    requires Inv(jobs, s) && Over(s)
    ensures Done(jobs, s)
  {
    BusyIsNotOver(s);
    forall p | 0 <= p < |jobs|
      ensures s.procs[p].phase.Finished? && Settled(jobs[p], s.procs[p])
    {
      assert s.procs[p].phase.Ready? ==> p in s.queue;
    }
    FinishedCpu(jobs, s.procs);
  }

  /** Whatever the tie-breaks, a run is no longer than the work to do, and one that cannot go on is done. */
  lemma {:induction false} RunsEnd(jobs: seq<Job>, q: nat, s: State, picks: seq<nat>)
    requires Inv(jobs, s) && q > 0 && RunsFrom(jobs, q, s, picks)
    ensures |picks| <= TotalLeft(jobs, s.procs)
    ensures Inv(jobs, Outcome(jobs, q, s, picks))
    ensures var t := Outcome(jobs, q, s, picks);
            (forall p: nat :: !Enabled(jobs, t, p)) ==> Done(jobs, t)
    decreases |picks|
  {
    if picks != [] {
      StepInv(jobs, q, s, picks[0]);
      StepProgress(jobs, q, s, picks[0]);
      RunsEnd(jobs, q, Step(jobs, q, s, picks[0]), picks[1..]);
    } else if Over(s) {
      OverMeansDone(jobs, s);
    } else {
      var p := LeastPending(s.procs, |s.procs|);
      StepInv(jobs, q, s, p);
    }
  }

  /** A state some run of the scheduler comes to. */
  ghost predicate Reached(jobs: seq<Job>, q: nat, s: State) {
    JobsOk(jobs) && exists picks :: RunsFrom(jobs, q, Start(jobs), picks) && Outcome(jobs, q, Start(jobs), picks) == s
  }

  lemma {:induction false} RunAppend(jobs: seq<Job>, q: nat, s: State, picks: seq<nat>, p: nat)
    requires RunsFrom(jobs, q, s, picks) && Enabled(jobs, Outcome(jobs, q, s, picks), p)
    ensures RunsFrom(jobs, q, s, picks + [p])
    ensures Outcome(jobs, q, s, picks + [p]) == Step(jobs, q, Outcome(jobs, q, s, picks), p)
    decreases |picks|
  {
    if picks == [] {
      assert picks + [p] == [p];
      assert RunsFrom(jobs, q, Step(jobs, q, s, p), [p][1..]);
    } else {
      RunAppend(jobs, q, Step(jobs, q, s, picks[0]), picks[1..], p);
      assert (picks + [p])[1..] == picks[1..] + [p];
    }
  }

  lemma ReachedStep(jobs: seq<Job>, q: nat, s: State, p: nat)
    requires Reached(jobs, q, s) && Enabled(jobs, s, p)
    ensures Reached(jobs, q, Step(jobs, q, s, p))
  {
    var picks :| RunsFrom(jobs, q, Start(jobs), picks) && Outcome(jobs, q, Start(jobs), picks) == s;
    RunAppend(jobs, q, Start(jobs), picks, p);
  }

  lemma ReachedInv(jobs: seq<Job>, q: nat, s: State)
    requires Reached(jobs, q, s) && q > 0
    ensures Inv(jobs, s)
  {
    var picks :| RunsFrom(jobs, q, Start(jobs), picks) && Outcome(jobs, q, Start(jobs), picks) == s;
    StartInv(jobs);
    RunsEnd(jobs, q, Start(jobs), picks);
  }

  lemma ReachedStart(jobs: seq<Job>, q: nat)
    requires JobsOk(jobs)
    ensures Reached(jobs, q, Start(jobs))
  {
    assert RunsFrom(jobs, q, Start(jobs), []);
  }

  /** Time never runs backwards. */
  lemma TimeMovesOn(jobs: seq<Job>, q: nat, s: State, p: nat)
    requires Inv(jobs, s) && Due(s, p)
    ensures Enabled(jobs, s, p) && s.now <= Step(jobs, q, s, p).now == s.procs[p].phase.t
  {
  }

  // ----- nobody waits long

  function Times(k: nat, q: nat): nat {
    if k == 0 then 0 else Times(k - 1, q) + q
  }

  lemma {:induction false} TimesMonotone(a: nat, b: nat, q: nat)
    requires a <= b
    ensures Times(a, q) <= Times(b, q)
    decreases b
  {
    if a < b {
      TimesMonotone(a, b - 1, q);
    }
  }

  lemma {:induction false} TimesIsProduct(k: nat, q: nat)
    ensures Times(k, q) == k * q
  {
    if k > 0 {
      TimesIsProduct(k - 1, q);
    }
  }

  predicate QueueOk(s: State) {
    && |s.procs| > 0
    && (forall i | 0 <= i < |s.queue| :: s.queue[i] < |s.procs|)
    && (forall a, b | 0 <= a < b < |s.queue| :: s.queue[a] != s.queue[b])
  }

  /** The one with k others before it is served in time, if the CPU is next free at `horizon`. */
  predicate Meets(q: nat, s: State, k: nat, horizon: int)
    requires QueueOk(s) && k < |s.queue|
  {
    horizon + Times(k, q) <= s.procs[s.queue[k]].phase.t + Times(|s.procs| - 1, q)
  }

  predicate AllMeet(q: nat, s: State, horizon: int)
    requires QueueOk(s)
  {
    forall k: nat | k < |s.queue| :: Meets(q, s, k, horizon)
  }

  /** The queue as it will be served: everybody gets the CPU in time. */
  predicate InTime(q: nat, s: State)
    requires QueueOk(s) && (s.cpu == FREE || 0 <= s.cpu < |s.procs|)
  {
    s.cpu != FREE ==> Horizon(s) <= s.now + q && AllMeet(q, s, Horizon(s))
  }

  /** The queue, the running process and a third that is neither are together at most all. */
  lemma QueueLeavesRoom(s: State, p: nat)
    requires Placed(s) && p < |s.procs| && !s.procs[p].phase.Ready?
    ensures |s.queue| + 1 <= |s.procs|
    ensures s.cpu != FREE && s.cpu != p ==> |s.queue| + 2 <= |s.procs|
  {
    Crowd(s.queue + [p], |s.procs|);
    if s.cpu != FREE && s.cpu != p {
      Crowd(s.queue + [p] + [s.cpu], |s.procs|);
    }
  }

  /** Joining the queue now, with all others before it, is in time. */
  lemma JoinMeets(q: nat, s: State, p: nat, t: nat, horizon: int)
    requires QueueOk(s) && AllMeet(q, s, horizon) && p < |s.procs| && p !in s.queue
    requires horizon + Times(|s.queue|, q) <= t + Times(|s.procs| - 1, q)
    ensures var r := State(t, s.procs[p := s.procs[p].(phase := Ready(t))], s.queue + [p], s.cpu, s.idle);
            QueueOk(r) && AllMeet(q, r, horizon)
  {
    var r := State(t, s.procs[p := s.procs[p].(phase := Ready(t))], s.queue + [p], s.cpu, s.idle);
    forall k: nat | k < |r.queue|
      ensures Meets(q, r, k, horizon)
    {
      if k < |s.queue| {
        assert Meets(q, s, k, horizon) && r.queue[k] == s.queue[k] && s.queue[k] != p;
      }
    }
  }

  /** Changing a process that is not in the queue, or the clock, changes nobody's turn. */
  lemma OutsideMeets(q: nat, s: State, r: State, horizon: int)
    requires QueueOk(s) && AllMeet(q, s, horizon) && r.queue == s.queue && |r.procs| == |s.procs|
    requires forall k | 0 <= k < |s.queue| :: r.procs[s.queue[k]] == s.procs[s.queue[k]]
    ensures QueueOk(r) && AllMeet(q, r, horizon)
  {
    forall k: nat | k < |r.queue|
      ensures Meets(q, r, k, horizon)
    {
      assert Meets(q, s, k, horizon);
    }
  }

  lemma PlacedIsOk(jobs: seq<Job>, s: State, p: nat)
    requires Inv(jobs, s) && Due(s, p)
    ensures QueueOk(s) && p !in s.queue && (s.cpu == FREE || 0 <= s.cpu < |s.procs|)
    ensures s.cpu == p <==> s.procs[p].phase.Running?
    ensures s.cpu == FREE ==> s.queue == []
    ensures Horizon(s) <= s.procs[p].phase.t || s.cpu != p
    ensures s.now <= s.procs[p].phase.t
    ensures |s.queue| + 1 <= |s.procs| && (s.cpu != FREE && s.cpu != p ==> |s.queue| + 2 <= |s.procs|)
    ensures Enabled(jobs, s, p) && |s.procs| == |jobs|
  {
    assert Settled(jobs[p], s.procs[p]);
    QueueLeavesRoom(s, p);
  }

  /** An event that frees the CPU, or finds it free. */
  lemma FreedInTime(jobs: seq<Job>, q: nat, s: State, p: nat)
    requires Enabled(jobs, s, p) && QueueOk(s) && p !in s.queue && (s.cpu == FREE || s.cpu == p)
    requires s.cpu == p <==> s.procs[p].phase.Running?
    requires s.cpu == FREE ==> s.queue == []
    requires s.cpu == p ==> AllMeet(q, s, s.procs[p].phase.t)
    requires |s.queue| + 1 <= |s.procs|
    ensures var t := Handle(jobs, s, p); t.cpu == FREE && QueueOk(t) && AllMeet(q, t, t.now)
  {
    var t := Handle(jobs, s, p);
    TimesMonotone(|s.queue|, |s.procs| - 1, q);
    assert AllMeet(q, s, t.now);
    if t.procs[p].phase.Ready? {
      JoinMeets(q, s, p, t.now, t.now);
      OutsideMeets(q, State(t.now, t.procs, t.queue, s.cpu, s.idle), t, t.now);
    } else {
      OutsideMeets(q, s, t, t.now);
    }
  }

  /** Giving the CPU away then keeps everybody in time, and the one served has waited at most (n-1)q. */
  lemma DispatchInTime(q: nat, s: State)
    requires QueueOk(s) && s.cpu == FREE && AllMeet(q, s, s.now)
    ensures var t := Dispatch(q, s); QueueOk(t) && (t.cpu == FREE || 0 <= t.cpu < |t.procs|) && InTime(q, t)
    ensures s.queue != [] ==> s.now - s.procs[s.queue[0]].phase.t <= Times(|s.procs| - 1, q)
  {
    if s.queue != [] {
      var t := Dispatch(q, s);
      assert Meets(q, s, 0, s.now);
      assert forall k | 0 <= k < |t.queue| :: t.queue[k] == s.queue[k + 1];
      forall k: nat | k < |t.queue|
        ensures Meets(q, t, k, Horizon(t))
      {
        assert Meets(q, s, k + 1, s.now) && t.queue[k] != s.queue[0];
      }
    }
  }

  /** An arrival while the CPU is busy. */
  lemma ArrivalInTime(jobs: seq<Job>, q: nat, s: State, p: nat)
    requires Enabled(jobs, s, p) && QueueOk(s) && p !in s.queue && s.cpu != FREE && s.cpu != p && 0 <= s.cpu < |s.procs|
    requires !s.procs[p].phase.Running? && s.now <= s.procs[p].phase.t
    requires InTime(q, s) && |s.queue| + 2 <= |s.procs|
    ensures var t := Handle(jobs, s, p); QueueOk(t) && t.cpu == s.cpu && InTime(q, t)
  {
    var t := Handle(jobs, s, p);
    TimesMonotone(|s.queue| + 1, |s.procs| - 1, q);
    JoinMeets(q, s, p, t.now, Horizon(s));
    OutsideMeets(q, State(t.now, t.procs, t.queue, s.cpu, s.idle), t, Horizon(s));
  }

  /** Who gets the CPU in this step, if anybody. */
  function Served(jobs: seq<Job>, s: State, p: nat): seq<nat>
    requires Enabled(jobs, s, p)
  {
    var t := Handle(jobs, s, p);
    if t.cpu == FREE && t.queue != [] then [t.queue[0]] else []
  }

  /** Whoever gets the CPU in this step has been in the queue for at most `bound`. */
  predicate ServedWithin(jobs: seq<Job>, s: State, p: nat, bound: nat)
    requires Enabled(jobs, s, p)
  {
    var t := Handle(jobs, s, p);
    forall h | h in Served(jobs, s, p) :: h < |t.procs| && t.now - t.procs[h].phase.t <= bound
  }

  lemma StepInTime(jobs: seq<Job>, q: nat, s: State, p: nat)
    requires Inv(jobs, s) && Due(s, p) && QueueOk(s) && InTime(q, s)
    ensures Enabled(jobs, s, p)
    ensures var t := Step(jobs, q, s, p); QueueOk(t) && (t.cpu == FREE || 0 <= t.cpu < |t.procs|) && InTime(q, t)
    ensures ServedWithin(jobs, s, p, Times(|jobs| - 1, q))
  {
    PlacedIsOk(jobs, s, p);
    if s.cpu == FREE || s.cpu == p {
      FreedInTime(jobs, q, s, p);
      DispatchInTime(q, Handle(jobs, s, p));
    } else {
      ArrivalInTime(jobs, q, s, p);
    }
  }

  /** Every turn anybody gets, in a run from s, comes within the bound. */
  ghost predicate AllServedWithin(jobs: seq<Job>, q: nat, s: State, picks: seq<nat>, bound: nat)
    requires RunsFrom(jobs, q, s, picks)
    decreases |picks|
  {
    picks != [] ==>
      && ServedWithin(jobs, s, picks[0], bound)
      && AllServedWithin(jobs, q, Step(jobs, q, s, picks[0]), picks[1..], bound)
  }

  /** Nobody stays in the queue for more than n-1 quanta, whatever the tie-breaks. */
  lemma {:induction false} NobodyWaitsLong(jobs: seq<Job>, q: nat, s: State, picks: seq<nat>)
    requires Inv(jobs, s) && QueueOk(s) && InTime(q, s) && RunsFrom(jobs, q, s, picks)
    ensures |jobs| > 0 && AllServedWithin(jobs, q, s, picks, (|jobs| - 1) * q)
    decreases |picks|
  {
    TimesIsProduct(|jobs| - 1, q);
    if picks != [] {
      StepInTime(jobs, q, s, picks[0]);
      StepInv(jobs, q, s, picks[0]);
      NobodyWaitsLong(jobs, q, Step(jobs, q, s, picks[0]), picks[1..]);
    }
  }

  /** In particular from the start. */
  lemma NobodyEverWaitsLong(jobs: seq<Job>, q: nat, picks: seq<nat>)
    requires JobsOk(jobs) && |jobs| > 0 && RunsFrom(jobs, q, Start(jobs), picks)
    ensures AllServedWithin(jobs, q, Start(jobs), picks, (|jobs| - 1) * q)
  {
    StartInv(jobs);
    NobodyWaitsLong(jobs, q, Start(jobs), picks);
  }
}
