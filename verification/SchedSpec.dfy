/** Round-robin scheduling driven by events, on values.  Among the events due at the least time any may
    be taken first, so what is proved here holds whatever the tie-break. */
module SchedSpec {
  /** A process: when it arrives, its CPU bursts, and the I/O after each but the last. */
  datatype Job = Job(id: int, arrival: nat, cpu: seq<nat>, io: seq<nat>)

  predicate JobOk(j: Job) {
    |j.cpu| >= 1 && |j.io| == |j.cpu| - 1
  }

  predicate JobsOk(jobs: seq<Job>) {
    && (forall p | 0 <= p < |jobs| :: JobOk(jobs[p]))
    && (forall a, b | 0 <= a < b < |jobs| :: jobs[a].id != jobs[b].id)
  }

  /** The process numbers. */
  function Ids(jobs: seq<Job>): (ids: seq<int>)
    ensures |ids| == |jobs|
  {
    seq(|jobs|, p requires 0 <= p < |jobs| => jobs[p].id)
  }

  /** Where a process is; the time is that of its next event, of its joining the queue, or of its end. */
  datatype Phase =
    | Coming(t: nat)
    | Ready(t: nat)
    | Running(t: nat)
    | Sleeping(t: nat)
    | Finished(t: nat)

  /** A process's place in its bursts: `rest` is what remains of the current one after the present run. */
  datatype Proc = Proc(phase: Phase, burst: nat, rest: nat, wait: int)

  datatype State = State(now: nat, procs: seq<Proc>, queue: seq<nat>, cpu: int, idle: int)

  const FREE: int := -1

  predicate Pending(p: Proc) {
    p.phase.Coming? || p.phase.Running? || p.phase.Sleeping?
  }

  /** Process p's event is one of those due first. */
  predicate Due(s: State, p: nat) {
    && p < |s.procs| && Pending(s.procs[p])
    && forall o | 0 <= o < |s.procs| && Pending(s.procs[o]) :: s.procs[p].phase.t <= s.procs[o].phase.t
  }

  function Start(jobs: seq<Job>): State
    requires JobsOk(jobs)
  {
    State(0, seq(|jobs|, p requires 0 <= p < |jobs| => Proc(Coming(jobs[p].arrival), 0, jobs[p].cpu[0], 0)), [], FREE, 0)
  }

  /** The effect of p's event at time t, before the CPU is given away again. */
  function Handle(jobs: seq<Job>, s: State, p: nat): State
    requires p < |s.procs| == |jobs| && Pending(s.procs[p])
    requires JobOk(jobs[p]) && s.procs[p].burst < |jobs[p].cpu|
  {
    var x := s.procs[p];
    var t := x.phase.t;
    var idle := if s.cpu == FREE && t > s.now then s.idle + (t - s.now) else s.idle;
    match x.phase
    case Running(_) =>
      if x.rest > 0 then
        State(t, s.procs[p := x.(phase := Ready(t))], s.queue + [p], FREE, idle)
      else if x.burst + 1 == |jobs[p].cpu| then
        State(t, s.procs[p := x.(phase := Finished(t), burst := x.burst + 1)], s.queue, FREE, idle)
      else
        State(t, s.procs[p := x.(phase := Sleeping(t + jobs[p].io[x.burst]), burst := x.burst + 1, rest := jobs[p].cpu[x.burst + 1])],
              s.queue, FREE, idle)
    case _ =>
      State(t, s.procs[p := x.(phase := Ready(t))], s.queue + [p], s.cpu, idle)
  }

  /** Gives a free CPU to the head of the queue, for at most a quantum. */
  function Dispatch(q: nat, s: State): State
    requires forall i | 0 <= i < |s.queue| :: s.queue[i] < |s.procs|
  {
    if s.cpu != FREE || s.queue == [] then s
    else
      var p := s.queue[0];
      var x := s.procs[p];
      var run := if q < x.rest then q else x.rest;
      s.(procs := s.procs[p := Proc(Running(s.now + run), x.burst, x.rest - run, x.wait + s.now - x.phase.t)],
         queue := s.queue[1..], cpu := p)
  }

  predicate Enabled(jobs: seq<Job>, s: State, p: nat) {
    && |s.procs| == |jobs| && Due(s, p) && JobOk(jobs[p]) && s.procs[p].burst < |jobs[p].cpu|
    && (forall i | 0 <= i < |s.queue| :: s.queue[i] < |s.procs|)
  }

  function Step(jobs: seq<Job>, q: nat, s: State, p: nat): State
    requires Enabled(jobs, s, p)
  {
    Dispatch(q, Handle(jobs, s, p))
  }

  // ----- bookkeeping

  function Sum(a: seq<nat>): nat {
    if a == [] then 0 else Sum(a[..|a| - 1]) + a[|a| - 1]
  }

  lemma SumNext(a: seq<nat>, k: nat)
    requires k < |a|
    ensures Sum(a[..k + 1]) == Sum(a[..k]) + a[k]
  {
    assert a[..k + 1][..k] == a[..k];
  }

  lemma {:induction false} SumBound(a: seq<nat>, k: nat)
    requires k < |a|
    ensures Sum(a[..k]) + a[k] <= Sum(a)
    decreases |a|
  {
    if k == |a| - 1 {
      assert a[..k] == a[..|a| - 1];
    } else {
      SumBound(a[..|a| - 1], k);
      assert a[..|a| - 1][..k] == a[..k];
    }
  }

  /** CPU time a process has had by the time in its phase. */
  function CpuDone(j: Job, x: Proc): int
    requires x.burst <= |j.cpu|
  {
    if x.burst == |j.cpu| then Sum(j.cpu) else Sum(j.cpu[..x.burst]) + j.cpu[x.burst] - x.rest
  }

  /** I/O time a process has had, or is having, by the time in its phase. */
  function IoDone(j: Job, x: Proc): int
    requires x.burst <= |j.cpu| && |j.io| == |j.cpu| - 1
  {
    if x.burst == |j.cpu| then Sum(j.io) else Sum(j.io[..x.burst])
  }

  /** One process's books: its time since arrival is waiting, computing and I/O, and nothing else. */
  predicate Settled(j: Job, x: Proc) {
    && JobOk(j)
    && (x.phase.Finished? <==> x.burst == |j.cpu|) && x.burst <= |j.cpu|
    && (!x.phase.Finished? ==> x.rest <= j.cpu[x.burst])
    && (x.phase.Coming? || x.phase.Sleeping? ==> x.rest == j.cpu[x.burst])
    && (x.phase.Ready? ==> x.rest > 0 || j.cpu[x.burst] == 0)
    && x.phase.t == j.arrival + x.wait + CpuDone(j, x) + IoDone(j, x)
  }

  predicate Books(jobs: seq<Job>, s: State) {
    && |s.procs| == |jobs|
    && (forall p | 0 <= p < |jobs| :: Settled(jobs[p], s.procs[p]))
  }

  /** The queue holds the ready processes, once each; the CPU the running one; events are not overdue. */
  predicate Placed(s: State) {
    && (forall i | 0 <= i < |s.queue| :: s.queue[i] < |s.procs| && s.procs[s.queue[i]].phase.Ready?)
    && (forall a, b | 0 <= a < b < |s.queue| :: s.queue[a] != s.queue[b])
    && (forall p | 0 <= p < |s.procs| && s.procs[p].phase.Ready? :: p in s.queue)
    && (s.cpu == FREE || 0 <= s.cpu < |s.procs|)
    && (forall p | 0 <= p < |s.procs| :: s.procs[p].phase.Running? <==> s.cpu == p)
    && (forall p | 0 <= p < |s.procs| && Pending(s.procs[p]) :: s.now <= s.procs[p].phase.t)
    && (forall p | 0 <= p < |s.procs| && s.procs[p].phase.Ready? :: s.procs[p].phase.t <= s.now)
  }

  /** All the CPU time given so far, counting a run in progress to its end. */
  function TotalCpu(jobs: seq<Job>, procs: seq<Proc>): int
    requires |procs| == |jobs| && forall p | 0 <= p < |jobs| :: procs[p].burst <= |jobs[p].cpu|
  {
    if jobs == [] then 0 else CpuDone(jobs[0], procs[0]) + TotalCpu(jobs[1..], procs[1..])
  }

  lemma {:induction false} TotalCpuUpdate(jobs: seq<Job>, procs: seq<Proc>, p: nat, x: Proc)
    requires |procs| == |jobs| && forall o | 0 <= o < |jobs| :: procs[o].burst <= |jobs[o].cpu|
    requires p < |jobs| && x.burst <= |jobs[p].cpu|
    ensures TotalCpu(jobs, procs[p := x]) == TotalCpu(jobs, procs) - CpuDone(jobs[p], procs[p]) + CpuDone(jobs[p], x)
  {
    if p == 0 {
      assert procs[p := x][1..] == procs[1..];
    } else {
      assert procs[p := x][1..] == procs[1..][p - 1 := x];
      TotalCpuUpdate(jobs[1..], procs[1..], p - 1, x);
    }
  }

  /** The time up to which the CPU's use is accounted for: the end of the present run, or now. */
  function Horizon(s: State): int
    requires s.cpu == FREE || 0 <= s.cpu < |s.procs|
  {
    if s.cpu == FREE then s.now else s.procs[s.cpu].phase.t
  }

  /** Idle time and CPU time together are all the time there was. */
  predicate Clock(jobs: seq<Job>, s: State) {
    && Books(jobs, s) && Placed(s)
    && s.idle + TotalCpu(jobs, s.procs) == Horizon(s)
  }

  ghost predicate Inv(jobs: seq<Job>, s: State) {
    && JobsOk(jobs) && Clock(jobs, s)
    && (s.cpu == FREE ==> s.queue == [])
  }

  lemma StartInv(jobs: seq<Job>)
    requires JobsOk(jobs)
    ensures Inv(jobs, Start(jobs))
  {
    var s := Start(jobs);
    forall p | 0 <= p < |jobs|
      ensures Settled(jobs[p], s.procs[p])
    {
      assert jobs[p].cpu[..0] == [] && jobs[p].io[..0] == [];
    }
    StartCpu(jobs, s.procs);
  }

  lemma {:induction false} StartCpu(jobs: seq<Job>, procs: seq<Proc>)
    requires |procs| == |jobs|
    requires forall p | 0 <= p < |jobs| :: JobOk(jobs[p]) && procs[p].burst == 0 && procs[p].rest == jobs[p].cpu[0]
    ensures TotalCpu(jobs, procs) == 0
  {
    if jobs != [] {
      assert jobs[0].cpu[..0] == [];
      StartCpu(jobs[1..], procs[1..]);
    }
  }

  // ----- a step keeps the books

  lemma HandleSettled(jobs: seq<Job>, s: State, p: nat)
    requires Books(jobs, s) && p < |jobs| && Pending(s.procs[p])
    ensures Books(jobs, Handle(jobs, s, p))
    ensures CpuDone(jobs[p], Handle(jobs, s, p).procs[p]) == CpuDone(jobs[p], s.procs[p])
  {
    var j, x := jobs[p], s.procs[p];
    assert Settled(j, x);
    if x.phase.Running? && x.rest == 0 {
      SumNext(j.cpu, x.burst);
      if x.burst + 1 == |j.cpu| {
        assert j.cpu[..x.burst + 1] == j.cpu && j.io[..x.burst] == j.io;
      } else {
        SumNext(j.io, x.burst);
      }
    }
  }

  lemma HandlePlaced(jobs: seq<Job>, s: State, p: nat)
    requires Books(jobs, s) && Placed(s) && Due(s, p)
    ensures Placed(Handle(jobs, s, p))
  {
    assert Settled(jobs[p], s.procs[p]);
    assert p !in s.queue;
  }

  lemma HandleClock(jobs: seq<Job>, s: State, p: nat)
    requires Clock(jobs, s) && Due(s, p)
    ensures Clock(jobs, Handle(jobs, s, p))
  {
    var t := Handle(jobs, s, p);
    assert Settled(jobs[p], s.procs[p]);
    HandleSettled(jobs, s, p);
    HandlePlaced(jobs, s, p);
    TotalCpuUpdate(jobs, s.procs, p, t.procs[p]);
    assert t.procs == s.procs[p := t.procs[p]];
  }

  lemma DispatchSettled(jobs: seq<Job>, q: nat, s: State)
    requires Books(jobs, s) && Placed(s)
    ensures Books(jobs, Dispatch(q, s))
  {
    if s.cpu == FREE && s.queue != [] {
      var p := s.queue[0];
      assert Settled(jobs[p], s.procs[p]);
    }
  }

  lemma DispatchQueue(q: nat, s: State)
    requires Placed(s) && s.cpu == FREE && s.queue != []
    ensures var t := Dispatch(q, s); var p := s.queue[0];
            && p !in t.queue
            && (forall i | 0 <= i < |t.queue| :: t.queue[i] < |s.procs| && t.procs[t.queue[i]].phase.Ready?)
            && (forall a, b | 0 <= a < b < |t.queue| :: t.queue[a] != t.queue[b])
            && (forall o | 0 <= o < |s.procs| && o != p && s.procs[o].phase.Ready? :: o in t.queue)
  {
    TailFacts(s.queue);
    assert forall i | 0 <= i < |s.queue[1..]| :: s.queue[1..][i] == s.queue[i + 1];
  }

  lemma TailFacts(queue: seq<nat>)
    requires queue != [] && forall a, b | 0 <= a < b < |queue| :: queue[a] != queue[b]
    ensures queue[0] !in queue[1..]
    ensures forall a, b | 0 <= a < b < |queue[1..]| :: queue[1..][a] != queue[1..][b]
    ensures forall o | o in queue :: o == queue[0] || o in queue[1..]
  {
    assert queue == [queue[0]] + queue[1..];
  }

  lemma DispatchPlaced(jobs: seq<Job>, q: nat, s: State)
    requires Placed(s)
    ensures Placed(Dispatch(q, s))
  {
    if s.cpu == FREE && s.queue != [] {
      DispatchQueue(q, s);
      var t := Dispatch(q, s);
      assert forall o | 0 <= o < |s.procs| && o != s.queue[0] :: t.procs[o] == s.procs[o];
    }
  }

  lemma DispatchClock(jobs: seq<Job>, q: nat, s: State)
    requires Clock(jobs, s)
    ensures Clock(jobs, Dispatch(q, s))
  {
    DispatchSettled(jobs, q, s);
    DispatchPlaced(jobs, q, s);
    if s.cpu == FREE && s.queue != [] {
      var t := Dispatch(q, s);
      var p := s.queue[0];
      assert Settled(jobs[p], s.procs[p]);
      TotalCpuUpdate(jobs, s.procs, p, t.procs[p]);
      assert t.procs == s.procs[p := t.procs[p]];
    }
  }

  /** Every step keeps the books, whichever of the due events is taken, and never leaves the CPU idle
      with somebody ready. */
  lemma StepInv(jobs: seq<Job>, q: nat, s: State, p: nat)
    requires Inv(jobs, s) && Due(s, p)
    ensures Enabled(jobs, s, p) && Inv(jobs, Step(jobs, q, s, p))
  {
    assert Settled(jobs[p], s.procs[p]);
    HandleClock(jobs, s, p);
    DispatchClock(jobs, q, Handle(jobs, s, p));
  }
}
