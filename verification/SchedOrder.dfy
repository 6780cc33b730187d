/** The tie-breaks of the two simulators, the one run each allows, and why the two end alike. */
module SchedOrder {
  import opened HeapOrder
  import opened SchedSpec
  import opened SchedRuns

  /** ByJoining: time-outs after everything else. ByState: arrivals, then burst ends, then time-outs. */
  datatype Tie = ByJoining | ByState

  function Class(tie: Tie, x: Proc): int {
    match tie
    case ByJoining => if x.phase.Running? && x.rest > 0 then 1 else 0
    case ByState => if !x.phase.Running? then 1 else if x.rest == 0 then 2 else 3
  }

  function KeyAt(tie: Tie, jobs: seq<Job>, procs: seq<Proc>, p: nat): Key
    requires p < |procs| == |jobs|
  {
    Key(procs[p].phase.t, Class(tie, procs[p]), jobs[p].id)
  }

  /** Process p's event comes before all others. */
  predicate First(tie: Tie, jobs: seq<Job>, s: State, p: nat) {
    && p < |s.procs| == |jobs| && Pending(s.procs[p])
    && forall o | 0 <= o < |jobs| && Pending(s.procs[o]) && o != p ::
         Less(KeyAt(tie, jobs, s.procs, p), KeyAt(tie, jobs, s.procs, o))
  }

  lemma FirstIsDue(tie: Tie, jobs: seq<Job>, s: State, p: nat)
    requires First(tie, jobs, s, p)
    ensures Due(s, p)
  {
  }

  lemma FirstIsUnique(tie: Tie, jobs: seq<Job>, s: State, p: nat, o: nat)
    requires First(tie, jobs, s, p) && First(tie, jobs, s, o)
    ensures p == o
  {
  }

  lemma {:induction false} LeastKey(tie: Tie, jobs: seq<Job>, procs: seq<Proc>, k: nat) returns (p: nat)
    requires JobsOk(jobs) && |procs| == |jobs| && k <= |jobs| && exists o :: 0 <= o < k && Pending(procs[o])
    ensures p < k && Pending(procs[p])
    ensures forall o | 0 <= o < k && Pending(procs[o]) && o != p :: Less(KeyAt(tie, jobs, procs, p), KeyAt(tie, jobs, procs, o))
  {
    if (exists o :: 0 <= o < k - 1 && Pending(procs[o])) {
      p := LeastKey(tie, jobs, procs, k - 1);
      assert jobs[p].id != jobs[k - 1].id;
      if Pending(procs[k - 1]) && Less(KeyAt(tie, jobs, procs, k - 1), KeyAt(tie, jobs, procs, p)) {
        p := k - 1;
      }
    } else {
      p := k - 1;
    }
  }

  /** As long as an event is left, one comes first. */
  lemma FirstExists(tie: Tie, jobs: seq<Job>, s: State)
    requires JobsOk(jobs) && |s.procs| == |jobs| && !Over(s)
    ensures exists p: nat :: First(tie, jobs, s, p)
  {
    var p := LeastKey(tie, jobs, s.procs, |jobs|);
    assert First(tie, jobs, s, p);
  }

  lemma FirstSteps(tie: Tie, jobs: seq<Job>, q: nat, s: State, p: nat)
    requires Inv(jobs, s) && q > 0 && First(tie, jobs, s, p)
    ensures Enabled(jobs, s, p) && Inv(jobs, Step(jobs, q, s, p))
    ensures TotalLeft(jobs, Step(jobs, q, s, p).procs) < TotalLeft(jobs, s.procs)
  {
    FirstIsDue(tie, jobs, s, p);
    StepInv(jobs, q, s, p);
    StepProgress(jobs, q, s, p);
  }

  /** Where the run that always takes the first event ends. */
  ghost function Result(tie: Tie, jobs: seq<Job>, q: nat, s: State): State
    requires Inv(jobs, s) && q > 0
    decreases TotalLeft(jobs, s.procs)
  {
    if Over(s) then s
    else
      FirstExists(tie, jobs, s);
      var p: nat :| First(tie, jobs, s, p);
      FirstSteps(tie, jobs, q, s, p);
      Result(tie, jobs, q, Step(jobs, q, s, p))
  }

  lemma ResultStep(tie: Tie, jobs: seq<Job>, q: nat, s: State, p: nat)
    requires Inv(jobs, s) && q > 0 && First(tie, jobs, s, p)
    ensures Enabled(jobs, s, p) && Inv(jobs, Step(jobs, q, s, p))
    ensures Result(tie, jobs, q, s) == Result(tie, jobs, q, Step(jobs, q, s, p))
  {
    FirstSteps(tie, jobs, q, s, p);
    assert !Over(s);
    forall o: nat | First(tie, jobs, s, o)
      ensures o == p
    {
      FirstIsUnique(tie, jobs, s, p, o);
    }
  }

  /** The run ends with everybody done, is one of the runs of the scheduler, and nobody waits long in it. */
  lemma {:induction false} ResultIsARun(tie: Tie, jobs: seq<Job>, q: nat, s: State) returns (picks: seq<nat>)
    requires Inv(jobs, s) && q > 0
    ensures RunsFrom(jobs, q, s, picks) && Outcome(jobs, q, s, picks) == Result(tie, jobs, q, s)
    ensures Done(jobs, Result(tie, jobs, q, s))
    decreases TotalLeft(jobs, s.procs)
  {
    picks := [];
    if Over(s) {
      OverMeansDone(jobs, s);
    } else {
      FirstExists(tie, jobs, s);
      var p: nat :| First(tie, jobs, s, p);
      FirstSteps(tie, jobs, q, s, p);
      ResultStep(tie, jobs, q, s, p);
      var rest := ResultIsARun(tie, jobs, q, Step(jobs, q, s, p));
      picks := [p] + rest;
      assert picks[1..] == rest;
    }
  }

  // ----- the tie-break does not matter

  /** No I/O burst is empty: the second simulator takes an empty one for the end of the process. */
  predicate RealIo(jobs: seq<Job>) {
    forall p, k | 0 <= p < |jobs| && 0 <= k < |jobs[p].io| :: jobs[p].io[k] > 0
  }

  /** a is about to join and b to end a burst, both now due. */
  ghost predicate JoinAndEnd(jobs: seq<Job>, q: nat, s: State, a: nat, b: nat) {
    && Inv(jobs, s) && Due(s, a) && Due(s, b) && q > 0
    && !s.procs[a].phase.Running? && s.procs[b].phase.Running? && s.procs[b].rest == 0
  }

  lemma BothStay(jobs: seq<Job>, q: nat, s: State, a: nat, b: nat)
    requires JoinAndEnd(jobs, q, s, a, b)
    ensures Enabled(jobs, s, a) && Enabled(jobs, s, b)
    ensures Enabled(jobs, Step(jobs, q, s, a), b) && Enabled(jobs, Step(jobs, q, s, b), a)
    ensures Step(jobs, q, s, b).procs[a] == s.procs[a] && Step(jobs, q, s, a).procs[b] == s.procs[b]
  {
    StepInv(jobs, q, s, a);
    StepInv(jobs, q, s, b);
    StayDue(jobs, q, s, a, b);
    StayDue(jobs, q, s, b, a);
  }

  /** A due event of one process stays due when another's is taken. */
  lemma StayDue(jobs: seq<Job>, q: nat, s: State, p: nat, o: nat)
    requires Inv(jobs, s) && Due(s, p) && Due(s, o) && p != o
    ensures Enabled(jobs, s, p)
    ensures var t := Step(jobs, q, s, p); Due(t, o) && t.procs[o] == s.procs[o] && Enabled(jobs, t, o)
  {
    StepInv(jobs, q, s, p);
    var h := Handle(jobs, s, p);
    HandlePlaced(jobs, s, p);
    assert h.procs[o] == s.procs[o];
    var t := Step(jobs, q, s, p);
    assert t.now == s.procs[o].phase.t;
    assert Settled(jobs[o], s.procs[o]);
  }

  /** A join and a burst end that are due together can be taken in either order. */
  lemma JoinAndEndCommute(jobs: seq<Job>, q: nat, s: State, a: nat, b: nat)
    requires JoinAndEnd(jobs, q, s, a, b)
    ensures Enabled(jobs, s, a) && Enabled(jobs, s, b)
    ensures var sa, sb := Step(jobs, q, s, a), Step(jobs, q, s, b);
            && Enabled(jobs, sa, b) && Enabled(jobs, sb, a)
            && Step(jobs, q, sa, b) == Step(jobs, q, sb, a)
  {
    BothStay(jobs, q, s, a, b);
    assert s.cpu == b && a !in s.queue && b !in s.queue;
    var sa, sb := Step(jobs, q, s, a), Step(jobs, q, s, b);
    var t := s.procs[a].phase.t;
    var xa := s.procs[a].(phase := Ready(t));
    var xb := Handle(jobs, s, b).procs[b];
    assert sa == State(t, s.procs[a := xa], s.queue + [a], b, s.idle);
    assert Handle(jobs, sa, b) == State(t, s.procs[a := xa][b := xb], s.queue + [a], FREE, s.idle);
    if s.queue == [] {
      assert sb == State(t, s.procs[b := xb], [], FREE, s.idle);
      assert Handle(jobs, sb, a) == State(t, s.procs[b := xb][a := xa], [a], FREE, s.idle);
      assert s.procs[b := xb][a := xa] == s.procs[a := xa][b := xb];
    } else {
      EndThenJoin(jobs, q, s, a, b, xa, xb);
    }
  }

  lemma EndThenJoin(jobs: seq<Job>, q: nat, s: State, a: nat, b: nat, xa: Proc, xb: Proc)
    requires JoinAndEnd(jobs, q, s, a, b) && s.queue != []
    requires Enabled(jobs, s, b) && Enabled(jobs, Step(jobs, q, s, b), a)
    requires xa == s.procs[a].(phase := Ready(s.procs[a].phase.t)) && xb == Handle(jobs, s, b).procs[b]
    ensures Step(jobs, q, Step(jobs, q, s, b), a)
         == Dispatch(q, State(s.procs[a].phase.t, s.procs[a := xa][b := xb], s.queue + [a], FREE, s.idle))
  {
    var t, h := s.procs[a].phase.t, s.queue[0];
    assert s.cpu == b && h != a && h != b;
    var r := State(t, s.procs[a := xa][b := xb], s.queue + [a], FREE, s.idle);
    var sb := Step(jobs, q, s, b);
    var xh := sb.procs[h];
    assert sb == State(t, s.procs[b := xb][h := xh], s.queue[1..], h, s.idle);
    assert Dispatch(q, r) == State(t, r.procs[h := xh], (s.queue + [a])[1..], h, s.idle);
    assert (s.queue + [a])[1..] == s.queue[1..] + [a];
    assert s.procs[b := xb][h := xh][a := xa] == r.procs[h := xh];
  }

  /** A burst end that is due can be taken at once, though arrivals due with it come first. */
  lemma {:induction false} EndCanComeFirst(jobs: seq<Job>, q: nat, s: State, b: nat)
    requires Inv(jobs, s) && q > 0 && RealIo(jobs)
    requires Due(s, b) && s.procs[b].phase.Running? && s.procs[b].rest == 0
    ensures Enabled(jobs, s, b) && Inv(jobs, Step(jobs, q, s, b))
    ensures Result(ByState, jobs, q, s) == Result(ByState, jobs, q, Step(jobs, q, s, b))
    decreases TotalLeft(jobs, s.procs)
  {
    StepInv(jobs, q, s, b);
    FirstExists(ByState, jobs, s);
    var a: nat :| First(ByState, jobs, s, a);
    ResultStep(ByState, jobs, q, s, a);
    if a != b {
      FirstIsDue(ByState, jobs, s, a);
      assert s.cpu == b;
      assert JoinAndEnd(jobs, q, s, a, b);
      var sa, sb := Step(jobs, q, s, a), Step(jobs, q, s, b);
      StayDue(jobs, q, s, a, b);
      StepProgress(jobs, q, s, a);
      EndCanComeFirst(jobs, q, sa, b);
      JoinAndEndCommute(jobs, q, s, a, b);
      StillFirst(jobs, q, s, a, b);
      ResultStep(ByState, jobs, q, sb, a);
    }
  }

  /** An arrival that comes first still does after a burst end due with it. */
  lemma StillFirst(jobs: seq<Job>, q: nat, s: State, a: nat, b: nat)
    requires JoinAndEnd(jobs, q, s, a, b) && First(ByState, jobs, s, a) && RealIo(jobs)
    ensures Enabled(jobs, s, b) && First(ByState, jobs, Step(jobs, q, s, b), a)
  {
    StepInv(jobs, q, s, b);
    StayDue(jobs, q, s, b, a);
    var sb := Step(jobs, q, s, b);
    forall o | 0 <= o < |jobs| && Pending(sb.procs[o]) && o != a
      ensures Less(KeyAt(ByState, jobs, sb.procs, a), KeyAt(ByState, jobs, sb.procs, o))
    {
      if sb.procs[o] == s.procs[o] {
        assert Less(KeyAt(ByState, jobs, s.procs, a), KeyAt(ByState, jobs, s.procs, o));
      } else {
        LaterThan(jobs, q, s, b, o);
      }
    }
  }

  /** Whatever else a step makes pending is a run of the CPU, or due later than the step. */
  lemma LaterThan(jobs: seq<Job>, q: nat, s: State, p: nat, o: nat)
    requires Inv(jobs, s) && Due(s, p) && q > 0 && RealIo(jobs) && o < |jobs|
    requires Enabled(jobs, s, p)
    requires var t := Step(jobs, q, s, p); Pending(t.procs[o]) && t.procs[o] != s.procs[o]
    ensures var x := Step(jobs, q, s, p).procs[o];
            x.phase.t >= s.procs[p].phase.t && (x.phase.Running? || x.phase.t > s.procs[p].phase.t)
  {
  }

  /** The two simulators break ties differently, but with no empty I/O bursts they end alike: every process
      finishes at the same time with the same wait, and the CPU is idle equally long. */
  lemma {:induction false} TieBreakDoesNotMatter(jobs: seq<Job>, q: nat, s: State)
    requires Inv(jobs, s) && q > 0 && RealIo(jobs)
    ensures Result(ByJoining, jobs, q, s) == Result(ByState, jobs, q, s)
    decreases TotalLeft(jobs, s.procs)
  {
    if !Over(s) {
      FirstExists(ByJoining, jobs, s);
      var p: nat :| First(ByJoining, jobs, s, p);
      ResultStep(ByJoining, jobs, q, s, p);
      FirstSteps(ByJoining, jobs, q, s, p);
      TieBreakDoesNotMatter(jobs, q, Step(jobs, q, s, p));
      FirstIsDue(ByJoining, jobs, s, p);
      if s.procs[p].phase.Running? && s.procs[p].rest == 0 {
        EndCanComeFirst(jobs, q, s, p);
      } else {
        FirstForBoth(jobs, s, p);
        ResultStep(ByState, jobs, q, s, p);
      }
    }
  }

  lemma FirstForBoth(jobs: seq<Job>, s: State, p: nat)
    requires Inv(jobs, s) && First(ByJoining, jobs, s, p) && !(s.procs[p].phase.Running? && s.procs[p].rest == 0)
    ensures First(ByState, jobs, s, p)
  {
  }

  /** From the start, for all jobs. */
  lemma SimulatorsAgree(jobs: seq<Job>, q: nat)
    requires JobsOk(jobs) && q > 0 && RealIo(jobs)
    ensures Inv(jobs, Start(jobs))
    ensures Result(ByJoining, jobs, q, Start(jobs)) == Result(ByState, jobs, q, Start(jobs))
  {
    StartInv(jobs);
    TieBreakDoesNotMatter(jobs, q, Start(jobs));
  }
}
