/** How long a process has the CPU once it is served, and who is served first, over whole runs. */
module SchedSlices {
  import opened SchedSpec
  import opened SchedRuns
  import opened TurnOrder

  /** The states of a run of the scheduler from its start, and the processes whose events it takes. */
  ghost predicate RunOf(jobs: seq<Job>, q: nat, run: seq<State>, picks: seq<nat>) {
    && JobsOk(jobs) && |run| == |picks| + 1 && run[0] == Start(jobs)
    && forall i: nat | i < |picks| :: TurnAt(jobs, q, run, picks, i)
  }

  ghost predicate TurnAt(jobs: seq<Job>, q: nat, run: seq<State>, picks: seq<nat>, i: nat)
    requires i < |picks| && |run| == |picks| + 1
  {
    Turns(jobs, q, run[i], picks[i], run[i + 1])
  }

  ghost predicate Turns(jobs: seq<Job>, q: nat, s: State, p: nat, t: State) {
    Enabled(jobs, s, p) && t == Step(jobs, q, s, p)
  }

  lemma {:induction false} RunInv(jobs: seq<Job>, q: nat, run: seq<State>, picks: seq<nat>, i: nat)
    requires RunOf(jobs, q, run, picks) && i < |run|
    ensures Inv(jobs, run[i])
  {
    if i == 0 {
      StartInv(jobs);
    } else {
      RunInv(jobs, q, run, picks, i - 1);
      assert TurnAt(jobs, q, run, picks, i - 1);
      StepInv(jobs, q, run[i - 1], picks[i - 1]);
    }
  }

  lemma {:induction false} StatesOf(jobs: seq<Job>, q: nat, s: State, picks: seq<nat>) returns (run: seq<State>)
    requires RunsFrom(jobs, q, s, picks)
    ensures |run| == |picks| + 1 && run[0] == s && run[|picks|] == Outcome(jobs, q, s, picks)
    ensures forall i: nat | i < |picks| :: TurnAt(jobs, q, run, picks, i)
    decreases |picks|
  {
    run := [s];
    if picks != [] {
      var more := StatesOf(jobs, q, Step(jobs, q, s, picks[0]), picks[1..]);
      run := [s] + more;
      forall i: nat | i < |picks|
        ensures TurnAt(jobs, q, run, picks, i)
      {
        if i > 0 {
          assert TurnAt(jobs, q, more, picks[1..], i - 1);
        }
      }
    }
  }

  /** Every state a run of the scheduler comes to is the last of such a sequence. */
  lemma ReachedByRun(jobs: seq<Job>, q: nat, s: State) returns (run: seq<State>, picks: seq<nat>)
    requires Reached(jobs, q, s)
    ensures RunOf(jobs, q, run, picks) && run[|run| - 1] == s
  {
    picks :| RunsFrom(jobs, q, Start(jobs), picks) && Outcome(jobs, q, Start(jobs), picks) == s;
    run := StatesOf(jobs, q, Start(jobs), picks);
  }

  /** A step of the run between two states of which the invariant holds. */
  ghost predicate Sound(jobs: seq<Job>, q: nat, s: State, p: nat, t: State) {
    Inv(jobs, s) && Inv(jobs, t) && Turns(jobs, q, s, p, t)
  }

  lemma RunStep(jobs: seq<Job>, q: nat, run: seq<State>, picks: seq<nat>, i: nat, next: nat)
    requires RunOf(jobs, q, run, picks) && next == i + 1 && i < |picks|
    ensures Sound(jobs, q, run[i], picks[i], run[next])
  {
    RunInv(jobs, q, run, picks, i);
    RunInv(jobs, q, run, picks, next);
    assert TurnAt(jobs, q, run, picks, i);
  }

  // ----- one step

  /** r has the CPU after the step and had not, or had to give it back. */
  predicate Gets(s: State, p: nat, t: State, r: nat) {
    t.cpu == r && (s.cpu != r || p == r)
  }

  /** Process r has the CPU until `end`; what it has had by then is `has`, and before it was served `had`. */
  predicate Slice(j: Job, q: nat, x: Proc, now: nat, had: int) {
    && x.phase.Running? && Settled(j, x)
    && x.phase.t - now == CpuDone(j, x) - had
    && (if x.rest > 0 then x.phase.t - now == q else x.phase.t - now <= q)
  }

  lemma HandledHead(jobs: seq<Job>, s: State, p: nat, r: nat)
    requires Inv(jobs, s) && Due(s, p) && Enabled(jobs, s, p)
    requires var h := Handle(jobs, s, p); h.cpu == FREE && h.queue != [] && h.queue[0] == r
    ensures var h := Handle(jobs, s, p); r < |jobs| == |h.procs| && h.procs[r].phase.Ready? && Settled(jobs[r], h.procs[r])
    ensures s.procs[r].burst == Handle(jobs, s, p).procs[r].burst <= |jobs[r].cpu|
    ensures CpuDone(jobs[r], Handle(jobs, s, p).procs[r]) == CpuDone(jobs[r], s.procs[r])
  {
    HandleClock(jobs, s, p);
    HandleSettled(jobs, s, p);
    var h := Handle(jobs, s, p);
    assert Settled(jobs[r], h.procs[r]) && Settled(jobs[r], s.procs[r]);
  }

  /** Whoever gets the CPU runs for the quantum or, if less is left of its burst, to the end of that. */
  lemma StepServes(jobs: seq<Job>, q: nat, s: State, p: nat, t: State, r: nat)
    requires Sound(jobs, q, s, p, t) && Gets(s, p, t, r)
    ensures r < |jobs| == |s.procs| == |t.procs| && s.procs[r].burst == t.procs[r].burst <= |jobs[r].cpu|
    ensures Slice(jobs[r], q, t.procs[r], t.now, CpuDone(jobs[r], s.procs[r]))
  {
    HandleClock(jobs, s, p);
    HandledHead(jobs, s, p, r);
    assert Settled(jobs[r], t.procs[r]);
  }

  /** It keeps the CPU until its own event. */
  lemma StepKeeps(jobs: seq<Job>, q: nat, s: State, p: nat, t: State, r: nat)
    requires Sound(jobs, q, s, p, t) && s.cpu == r && p != r
    ensures r < |s.procs| == |t.procs| && t.procs[r] == s.procs[r] && t.cpu == r
  {
    HandleClock(jobs, s, p);
  }

  /** Which comes at the time set for it, as a time-out if something is left of the burst. */
  lemma StepEnds(jobs: seq<Job>, q: nat, s: State, r: nat, t: State)
    requires Sound(jobs, q, s, r, t) && s.cpu == r
    ensures r < |jobs| == |s.procs| == |t.procs| && s.procs[r].phase == Running(t.now)
    ensures t.procs[r].burst == s.procs[r].burst + if s.procs[r].rest > 0 then 0 else 1
  {
    assert s.procs[r].phase.Running?;
    assert Settled(jobs[r], s.procs[r]);
  }

  // ----- runs

  /** In step i process r gets the CPU, and step j is its next event. */
  ghost predicate HasCpu(run: seq<State>, picks: seq<nat>, i: nat, j: nat, r: nat)
    requires |run| == |picks| + 1
  {
    i < j < |picks| && Gets(run[i], picks[i], run[i + 1], r) && picks[j] == r && forall k | i < k < j :: picks[k] != r
  }

  /** Process r has the CPU and is as it was when it got it. */
  predicate Keeps(s: State, r: nat, x: Proc) {
    r < |s.procs| && s.procs[r] == x && s.cpu == r
  }

  lemma KeepsOn(jobs: seq<Job>, q: nat, run: seq<State>, picks: seq<nat>, k: nat, next: nat, r: nat, x: Proc)
    requires RunOf(jobs, q, run, picks) && next == k + 1 && k < |picks| && picks[k] != r && Keeps(run[k], r, x)
    ensures Keeps(run[next], r, x)
  {
    RunStep(jobs, q, run, picks, k, next);
    StepKeeps(jobs, q, run[k], picks[k], run[next], r);
  }

  lemma {:induction false} KeepsCpu(jobs: seq<Job>, q: nat, run: seq<State>, picks: seq<nat>, from: nat, k: nat, r: nat, x: Proc)
    requires RunOf(jobs, q, run, picks) && from <= k < |run| && Keeps(run[from], r, x)
    requires forall h | from <= h < k :: picks[h] != r
    ensures Keeps(run[k], r, x)
    decreases k
  {
    if from < k {
      KeepsCpu(jobs, q, run, picks, from, k - 1, r, x);
      KeepsOn(jobs, q, run, picks, k - 1, k, r, x);
    }
  }

  /** CPU time of process r as of its last event, a run in progress counted to its end. */
  function CpuOf(jobs: seq<Job>, s: State, r: nat): int
    requires r < |jobs| == |s.procs| && s.procs[r].burst <= |jobs[r].cpu|
  {
    CpuDone(jobs[r], s.procs[r])
  }

  /** What a process does with the CPU between being served at time `from` and its next event at `to`. */
  ghost predicate Spends(jobs: seq<Job>, q: nat, before: State, served: State, last: State, after: State, r: nat) {
    && r < |jobs| == |before.procs| == |last.procs| == |after.procs|
    && before.procs[r].burst == last.procs[r].burst < |jobs[r].cpu|
    && (var spent := after.now - served.now; var burst := before.procs[r].burst;
        // all the time since then is CPU time of this process
        && spent == CpuOf(jobs, last, r) - CpuOf(jobs, before, r)
        && (if CpuOf(jobs, last, r) == Sum(jobs[r].cpu[..burst + 1]) then
              // its burst has ended, in a quantum at most
              after.procs[r].burst == burst + 1 && spent <= q
            else
              // it has been timed out, after a whole quantum, with some of its burst left
              after.procs[r].burst == burst && spent == q && CpuOf(jobs, last, r) < Sum(jobs[r].cpu[..burst + 1])))
  }

  /** A process that is timed out has had the CPU for exactly a quantum since it was served, one whose burst
      ends for at most that, and to the end of the burst. */
  lemma QuantumIsKept(jobs: seq<Job>, q: nat, run: seq<State>, picks: seq<nat>, i: nat, j: nat, r: nat)
    requires RunOf(jobs, q, run, picks) && HasCpu(run, picks, i, j, r)
    ensures Spends(jobs, q, run[i], run[i + 1], run[j], run[j + 1], r)
  {
    RunStep(jobs, q, run, picks, i, i + 1);
    StepServes(jobs, q, run[i], picks[i], run[i + 1], r);
    KeepsCpu(jobs, q, run, picks, i + 1, j, r, run[i + 1].procs[r]);
    RunStep(jobs, q, run, picks, j, j + 1);
    StepEnds(jobs, q, run[j], r, run[j + 1]);
    SliceSpends(jobs, q, run[i], run[i + 1], run[j], run[j + 1], r);
  }

  lemma SliceSpends(jobs: seq<Job>, q: nat, before: State, served: State, last: State, after: State, r: nat)
    requires r < |jobs| == |before.procs| == |served.procs| == |last.procs| == |after.procs|
    requires before.procs[r].burst == served.procs[r].burst <= |jobs[r].cpu| && last.procs[r] == served.procs[r]
    requires Slice(jobs[r], q, served.procs[r], served.now, CpuOf(jobs, before, r))
    requires last.procs[r].phase == Running(after.now)
    requires after.procs[r].burst == last.procs[r].burst + if last.procs[r].rest > 0 then 0 else 1
    ensures Spends(jobs, q, before, served, last, after, r)
  {
    SumNext(jobs[r].cpu, last.procs[r].burst);
  }

  // ----- first come, first served

  /** The queue after a step is the queue before, with p at its end if it joined, and without its head if
      that got the CPU. */
  lemma StepQueue(jobs: seq<Job>, q: nat, s: State, p: nat, t: State) returns (all: seq<nat>)
    requires Sound(jobs, q, s, p, t)
    ensures p !in s.queue && p < |jobs| && (all == s.queue || all == s.queue + [p])
    ensures if t.cpu != FREE && t.cpu >= 0 && Gets(s, p, t, t.cpu) then all != [] && t.cpu == all[0] && t.queue == all[1..] else t.queue == all
  {
    HandleClock(jobs, s, p);
    all := Handle(jobs, s, p).queue;
    assert p !in s.queue;
  }

  lemma QueueGoesOn(jobs: seq<Job>, q: nat, run: seq<State>, picks: seq<nat>, t: nat, next: nat) returns (all: seq<nat>)
    requires RunOf(jobs, q, run, picks) && next == t + 1 && t < |picks| && ByTurn(picks, t, run[t].queue, |jobs|)
    ensures ByTurn(picks, next, all, |jobs|) && ByTurn(picks, next, run[next].queue, |jobs|)
    ensures forall r: nat | Gets(run[t], picks[t], run[next], r) :: all == [r] + run[next].queue
  {
    RunStep(jobs, q, run, picks, t, next);
    all := StepQueue(jobs, q, run[t], picks[t], run[next]);
    StillByTurn(picks, t, next, run[t].queue, |jobs|);
    LastByTurn(picks, t, next, run[t].queue, |jobs|);
    if all != [] {
      TailByTurn(picks, next, all, |jobs|);
    }
  }

  /** The queue is in the order in which its processes joined it, on arrival, from I/O or timed out: these
      were their last events. */
  lemma {:induction false} QueueByJoining(jobs: seq<Job>, q: nat, run: seq<State>, picks: seq<nat>, t: nat)
    requires RunOf(jobs, q, run, picks) && t < |run|
    ensures ByTurn(picks, t, run[t].queue, |jobs|)
  {
    if t > 0 {
      QueueByJoining(jobs, q, run, picks, t - 1);
      var all := QueueGoesOn(jobs, q, run, picks, t - 1, t);
    }
  }

  /** Whoever gets the CPU joined the queue before everybody left in it. */
  lemma FirstComeFirstServed(jobs: seq<Job>, q: nat, run: seq<State>, picks: seq<nat>, i: nat, next: nat, r: nat, o: nat)
    requires RunOf(jobs, q, run, picks) && next == i + 1 < |run| && Gets(run[i], picks[i], run[next], r) && o in run[next].queue
    ensures o != r ==> LastTurn(picks, next, r, |jobs|) < LastTurn(picks, next, o, |jobs|)
  {
    QueueByJoining(jobs, q, run, picks, i);
    var all := QueueGoesOn(jobs, q, run, picks, i, next);
    if o != r {
      HeadIsOldest(picks, next, all, o, |jobs|);
    }
  }
}
