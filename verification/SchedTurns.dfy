/** What one step of the scheduler comes to, in the terms in which the two simulators carry it out. */
module SchedTurns {
  import opened SchedSpec
  import opened SchedRuns
  import opened SchedOrder

  /** At most one process runs. */
  ghost predicate OneRuns(procs: seq<Proc>) {
    forall a, b | 0 <= a < |procs| && 0 <= b < |procs| && procs[a].phase.Running? && procs[b].phase.Running? :: a == b
  }

  /** The process after its burst ends at time t. */
  function Ended(j: Job, x: Proc, t: nat): Proc
    requires JobOk(j) && x.burst < |j.cpu|
  {
    if x.burst + 1 == |j.cpu| then x.(phase := Finished(t), burst := x.burst + 1)
    else x.(phase := Sleeping(t + j.io[x.burst]), burst := x.burst + 1, rest := j.cpu[x.burst + 1])
  }

  /** The process after it gets the CPU at time t. */
  function Started(x: Proc, q: nat, t: nat): Proc
    requires x.phase.Ready?
  {
    var run := if q < x.rest then q else x.rest;
    Proc(Running(t + run), x.burst, x.rest - run, x.wait + t - x.phase.t)
  }

  /** Idle time up to t. */
  function IdleAt(s: State, t: int): int {
    if t > s.now && s.cpu == FREE then s.idle + (t - s.now) else s.idle
  }

  /** The queue is of processes; if its head is to be served, what that comes to. */
  ghost predicate Servable(jobs: seq<Job>, q: nat, s: State) {
    && (forall i | 0 <= i < |s.queue| :: s.queue[i] < |s.procs|)
    && (s.cpu == FREE && s.queue != [] ==>
          var p := s.queue[0];
          && p < |s.procs| == |jobs| && s.procs[p].phase.Ready? && Settled(jobs[p], s.procs[p])
          && Dispatch(q, s) == State(s.now, s.procs[p := Started(s.procs[p], q, s.now)], s.queue[1..], p, s.idle)
          && OneRuns(Dispatch(q, s).procs))
  }

  lemma DispatchFacts(jobs: seq<Job>, q: nat, s: State)
    requires Books(jobs, s) && Placed(s)
    ensures Servable(jobs, q, s)
  {
  }

  /** The state after the event of p: it ends its burst, or joins the queue. */
  lemma HandleFacts(jobs: seq<Job>, q: nat, s: State, p: nat)
    requires Reached(jobs, q, s) && q > 0 && Due(s, p) && |s.procs| == |jobs|
    ensures var x := s.procs[p]; var t := x.phase.t;
      && Settled(jobs[p], x) && x.burst < |jobs[p].cpu| && Enabled(jobs, s, p)
      && |s.queue| < |jobs| && OneRuns(s.procs)
      && Handle(jobs, s, p)
         == if x.phase.Running? && x.rest == 0 then
              State(t, s.procs[p := Ended(jobs[p], x, t)], s.queue, FREE, IdleAt(s, t))
            else
              State(t, s.procs[p := x.(phase := Ready(t))], s.queue + [p], if x.phase.Running? then FREE else s.cpu, IdleAt(s, t))
  {
    ReachedInv(jobs, q, s);
    assert Settled(jobs[p], s.procs[p]);
    QueueLeavesRoom(s, p);
  }

  lemma TurnFacts(tie: Tie, jobs: seq<Job>, q: nat, s: State, p: nat)
    requires Reached(jobs, q, s) && q > 0 && First(tie, jobs, s, p)
    ensures Enabled(jobs, s, p) && Due(s, p)
    ensures Servable(jobs, q, Handle(jobs, s, p)) && Handle(jobs, s, p).now == s.procs[p].phase.t
  {
    ReachedInv(jobs, q, s);
    FirstSteps(tie, jobs, q, s, p);
    FirstIsDue(tie, jobs, s, p);
    HandleClock(jobs, s, p);
    DispatchFacts(jobs, q, Handle(jobs, s, p));
  }
}
