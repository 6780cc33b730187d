/** The two simulators side by side. */
module SchedAgree {
  import opened SchedSpec
  import opened SchedRuns
  import opened SchedOrder
  import EventScheduler
  import JobScheduler

  /** With no empty I/O bursts the two programs report the same: the same total and idle time, and for each
      process the same time of exit, turnaround and wait, though one adds the waits up turn by turn and the
      other takes the bursts from the turnaround. */
  lemma SameReports(jobs: seq<Job>, q: nat, rs: seq<EventScheduler.PCB>, exits: seq<JobScheduler.Exit>,
                    twt: int, total1: int, total2: int, idle1: int, idle2: int)
    requires JobsOk(jobs) && q > 0 && RealIo(jobs) && |jobs| <= |rs|
    requires EventScheduler.Reports(rs, jobs, q, total1, idle1)
    requires JobScheduler.Reports(exits, twt, jobs, q, total2, idle2)
    ensures total1 == total2 && idle1 == idle2
    ensures forall k | 0 <= k < |exits| :: SameLine(exits[k], rs, |jobs|)
    ensures forall p | 0 <= p < |jobs| :: HasLine(exits, p)
  {
    SimulatorsAgree(jobs, q);
    LinesAreRecords(jobs, Result(ByState, jobs, q, Start(jobs)).procs, rs, exits, twt);
  }

  /** The line says what the record says. */
  predicate SameLine(e: JobScheduler.Exit, rs: seq<EventScheduler.PCB>, n: nat)
    requires n <= |rs|
  {
    && e.p < n && e.time == rs[e.p].completion_time && e.tat == rs[e.p].turnaround_time
    && e.wtt == rs[e.p].wait_time
  }

  predicate HasLine(exits: seq<JobScheduler.Exit>, p: nat) {
    exists k :: 0 <= k < |exits| && exits[k].p == p
  }

  lemma LinesAreRecords(jobs: seq<Job>, procs: seq<Proc>, rs: seq<EventScheduler.PCB>, exits: seq<JobScheduler.Exit>, twt: int)
    requires |jobs| <= |rs| && JobScheduler.Logged(exits, twt, jobs, procs)
    requires forall p | 0 <= p < |jobs| :: procs[p].phase.Finished? && EventScheduler.Final(rs[p], jobs[p], procs[p])
    ensures forall k | 0 <= k < |exits| :: SameLine(exits[k], rs, |jobs|)
    ensures forall p | 0 <= p < |jobs| :: HasLine(exits, p)
  {
    forall p | 0 <= p < |jobs|
      ensures HasLine(exits, p)
    {
      assert procs[p].phase.Finished?;
    }
  }

  // ----- with a long quantum, first come first served

  predicate NoTimeouts(procs: seq<Proc>) {
    forall p | 0 <= p < |procs| && procs[p].phase.Running? :: procs[p].rest == 0
  }

  predicate LongerThanBursts(jobs: seq<Job>, q: nat) {
    forall p, k | 0 <= p < |jobs| && 0 <= k < |jobs[p].cpu| :: jobs[p].cpu[k] <= q
  }

  lemma StepHasNoTimeouts(jobs: seq<Job>, q: nat, s: State, p: nat)
    requires Inv(jobs, s) && Enabled(jobs, s, p) && LongerThanBursts(jobs, q) && NoTimeouts(s.procs)
    ensures NoTimeouts(Step(jobs, q, s, p).procs)
  {
  }

  /** With a quantum no burst exceeds, as in the first-come-first-served run, nobody is ever preempted. */
  lemma {:induction false} NobodyIsPreempted(jobs: seq<Job>, q: nat, s: State, picks: seq<nat>)
    requires Inv(jobs, s) && q > 0 && RunsFrom(jobs, q, s, picks)
    requires LongerThanBursts(jobs, q) && NoTimeouts(s.procs)
    ensures NoTimeouts(Outcome(jobs, q, s, picks).procs)
    decreases |picks|
  {
    if picks != [] {
      StepHasNoTimeouts(jobs, q, s, picks[0]);
      StepInv(jobs, q, s, picks[0]);
      NobodyIsPreempted(jobs, q, Step(jobs, q, s, picks[0]), picks[1..]);
    }
  }
}
