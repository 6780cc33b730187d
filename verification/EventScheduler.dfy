/** The first simulator: process records, ready queue and event heap, changed in place event by event. */
module EventScheduler {
  import opened ReadyQueue
  import opened EventHeap
  import opened SchedSpec
  import opened SchedRuns
  import opened SchedOrder
  import opened SchedTurns
  import opened EventBook

  datatype ProcessState = READY | RUNNING | WAITING | FINISHED

  datatype PCB = PCB(state: ProcessState, current_burst: nat, remaining_time: nat, wait_time: int,
                     completion_time: int, turnaround_time: int, last_state_change: int)

  function StateOf(f: Phase): ProcessState {
    match f
    case Running(_) => RUNNING
    case Sleeping(_) => WAITING
    case Finished(_) => FINISHED
    case _ => READY
  }

  /** The record of a process at point x of job j. */
  predicate Matches(r: PCB, j: Job, x: Proc) {
    && r.state == StateOf(x.phase) && r.current_burst == x.burst
    && r.remaining_time == x.rest && r.wait_time == x.wait
    && (x.phase.Ready? ==> r.last_state_change == x.phase.t)
    && (x.phase.Finished? ==> r.completion_time == x.phase.t && r.turnaround_time == x.phase.t - j.arrival)
  }

  predicate AllMatch(rs: seq<PCB>, jobs: seq<Job>, procs: seq<Proc>) {
    && |procs| == |jobs| <= |rs|
    && forall p | 0 <= p < |jobs| :: Matches(rs[p], jobs[p], procs[p])
  }

  lemma MatchUpdate(rs: seq<PCB>, jobs: seq<Job>, procs: seq<Proc>, p: nat, r: PCB, x: Proc)
    requires AllMatch(rs, jobs, procs) && p < |jobs| && Matches(r, jobs[p], x)
    ensures AllMatch(rs[p := r], jobs, procs[p := x])
  {
  }

  lemma EventTaken(jobs: seq<Job>, q: nat, s: State, m: multiset<Event>, rest: multiset<Event>, e: Event)
    requires Reached(jobs, q, s) && q > 0 && |s.procs| == |jobs| && Tied(m, s.procs) && m == rest + multiset{e}
    requires forall f | f in m :: f.p < |jobs| && CompareEvents(Ids(jobs), f, e) >= 0
    ensures First(ByJoining, jobs, s, e.p) && e == EventOf(e.p, s.procs[e.p])
    ensures TiedBut(rest, s.procs, e.p)
  {
    ReachedInv(jobs, q, s);
    assert m[e] > 0;
    PoppedIsFirst(jobs, s, m, e);
    TiedPop(m, rest, s.procs, e);
  }

  /** Before a run: no waiting counted yet. */
  predicate Fresh(rs: seq<PCB>, n: nat) {
    n <= |rs| && forall p | 0 <= p < n :: rs[p].wait_time == 0
  }

  class Simulation {
    const jobs: seq<Job>
    const processes: array<PCB>
    const ready_queue: Queue
    const event_queue: EventQueue
    const quantum: nat
    var current_time: int
    var cpu_idle_time: int
    var last_event_time: int
    var running_process: int
    /** The state of the abstract scheduler this stands for. */
    ghost var st: State

    ghost const Repr: set<object> := {this, processes, ready_queue, ready_queue.data, event_queue, event_queue.data}

    ghost predicate Shape()
      reads ready_queue, ready_queue.data, event_queue, event_queue.data
    {
      && JobsOk(jobs) && |jobs| <= MAX_PROCESSES == processes.Length
      && quantum > 0
      && ready_queue.Valid()
      && event_queue.Valid() && event_queue.Ordered() && event_queue.ids == Ids(jobs)
    }

    /** Everything but the clock is as in state s, the event of process `but` being out of the heap. */
    ghost predicate Mirrors(s: State, but: int)
      reads this`running_process, this`cpu_idle_time, processes
      reads ready_queue, ready_queue.data, event_queue, event_queue.data
    {
      && Shape()
      && AllMatch(processes[..], jobs, s.procs)
      && ready_queue.Contents == s.queue && running_process == s.cpu && cpu_idle_time == s.idle
      && TiedBut(event_queue.Contents(), s.procs, but)
    }

    ghost predicate Valid()
      reads Repr
    {
      && Mirrors(st, NOBODY) && Reached(jobs, quantum, st) && last_event_time == st.now
    }

    constructor Init(jobs: seq<Job>, processes: array<PCB>, quantum: nat)
      requires JobsOk(jobs) && |jobs| <= MAX_PROCESSES == processes.Length && quantum > 0
      ensures this.jobs == jobs && this.processes == processes && this.quantum == quantum
      ensures fresh(Repr - {processes}) && Shape()
      ensures ready_queue.Contents == [] && event_queue.Contents() == multiset{}
      ensures running_process == -1 && cpu_idle_time == 0 && last_event_time == current_time == 0
    {
      this.jobs := jobs;
      this.processes := processes;
      this.quantum := quantum;
      ready_queue := new Queue();
      event_queue := new EventQueue(Ids(jobs));
      current_time, cpu_idle_time, last_event_time := 0, 0, 0;
      running_process := -1;
    }

    /** Puts the event of process p into the heap. */
    method Announce(event: Event, ghost s: State)
      requires Mirrors(s, event.p) && event.p < |jobs| && Pending(s.procs[event.p])
      requires event == EventOf(event.p, s.procs[event.p]) && OneRuns(s.procs)
      modifies event_queue, event_queue.data
      ensures Mirrors(s, NOBODY)
    {
      TiedSize(event_queue.Contents(), s.procs, event.p);
      TiedPush(event_queue.Contents(), s.procs, event.p, s.procs[event.p]);
      assert s.procs[event.p := s.procs[event.p]] == s.procs;
      TiedFits(Ids(jobs), event_queue.Contents() + multiset{event}, s.procs, NOBODY);
      event_queue.Push(event);
    }

    /** Changes the record of process p, whose event is out of the heap. */
    method Record(p: nat, r: PCB, ghost s: State, ghost x: Proc)
      requires Mirrors(s, p) && p < |jobs| && Matches(r, jobs[p], x)
      modifies processes
      ensures Mirrors(s.(procs := s.procs[p := x]), p) && processes[p] == r
    {
      MatchUpdate(processes[..], jobs, s.procs, p, r, x);
      ghost var rs := processes[..];
      processes[p] := r;
      assert processes[..] == rs[p := r];
    }

    /** Takes the next event out. */
    method TakeEvent() returns (e: Event)
      requires Valid() && event_queue.size > 0
      modifies this`current_time, event_queue, event_queue.data
      ensures First(ByJoining, jobs, st, e.p) && e == EventOf(e.p, st.procs[e.p])
      ensures Mirrors(st, e.p) && current_time == e.time
    {
      ghost var m := event_queue.Contents();
      e := event_queue.Pop();
      EventTaken(jobs, quantum, st, m, event_queue.Contents(), e);
      current_time := e.time;
    }

    /** Counts the time since the last event as idle, if the CPU was free. */
    method AccountIdle(ghost but: int)
      requires Mirrors(st, but) && last_event_time == st.now
      modifies this`cpu_idle_time
      ensures Mirrors(st.(idle := IdleAt(st, current_time)), but)
    {
      if current_time > last_event_time && running_process == -1 {
        cpu_idle_time := cpu_idle_time + (current_time - last_event_time);
      }
    }

    /** Process p, whose event is out of the heap, joins the ready queue now. */
    method BackToReady(p: nat, ghost s: State)
      requires Mirrors(s, p) && p < |jobs| && |s.queue| < MAX_PROCESSES && current_time >= 0
      modifies processes, ready_queue, ready_queue.data
      ensures Mirrors(State(s.now, s.procs[p := s.procs[p].(phase := Ready(current_time))], s.queue + [p], s.cpu, s.idle), NOBODY)
    {
      ghost var x := s.procs[p].(phase := Ready(current_time));
      assert Matches(processes[p], jobs[p], s.procs[p]);
      TiedDrop(event_queue.Contents(), s.procs, p, x);
      Record(p, processes[p].(state := READY, last_state_change := current_time), s, x);
      ready_queue.Enqueue(p);
    }

    /** The burst of process p, whose event is out of the heap, ends now. */
    method BurstEnd(p: nat, ghost s: State)
      requires Mirrors(s, p) && p < |jobs| && s.procs[p].burst < |jobs[p].cpu| && current_time >= 0
      requires OneRuns(s.procs) && s.procs[p].phase.Running? && JobOk(jobs[p])
      modifies this`running_process, processes, event_queue, event_queue.data
      ensures Mirrors(State(s.now, s.procs[p := Ended(jobs[p], s.procs[p], current_time)], s.queue, FREE, s.idle), NOBODY)
    {
      ghost var x := Ended(jobs[p], s.procs[p], current_time);
      ghost var s' := State(s.now, s.procs[p := x], s.queue, FREE, s.idle);
      var r := processes[p].(current_burst := processes[p].current_burst + 1, last_state_change := current_time);
      assert Matches(processes[p], jobs[p], s.procs[p]);
      running_process := -1;
      if r.current_burst >= |jobs[p].cpu| {
        r := r.(state := FINISHED, completion_time := current_time, turnaround_time := current_time - jobs[p].arrival);
        TiedDrop(event_queue.Contents(), s.procs, p, x);
        Record(p, r, s.(cpu := FREE), x);
      } else {
        r := r.(state := WAITING, remaining_time := jobs[p].cpu[r.current_burst]);
        Record(p, r, s.(cpu := FREE), x);
        Announce(Event(current_time + jobs[p].io[r.current_burst - 1], p, IO_BURST_END), s');
      }
    }

    /** Gives a free CPU to the head of the ready queue. */
    method DispatchNext(ghost s: State)
      requires Mirrors(s, NOBODY) && Servable(jobs, quantum, s) && current_time == s.now
      modifies this`running_process, processes, ready_queue, ready_queue.data, event_queue, event_queue.data
      ensures Mirrors(Dispatch(quantum, s), NOBODY)
    {
      if running_process == -1 && ready_queue.size != 0 {
        var next := ready_queue.Dequeue();
        Serve(next, s);
      }
    }

    /** The head of the ready queue, taken out of it, gets the CPU. */
    method Serve(next: nat, ghost s: State)
      requires Servable(jobs, quantum, s) && s.cpu == FREE && s.queue != [] && next == s.queue[0]
      requires Mirrors(s.(queue := s.queue[1..]), NOBODY) && current_time == s.now
      modifies this`running_process, processes, event_queue, event_queue.data
      ensures Mirrors(Dispatch(quantum, s), NOBODY)
    {
      ghost var x := Started(s.procs[next], quantum, s.now);
      TiedIdle(event_queue.Contents(), s.procs, next);
      assert Matches(processes[next], jobs[next], s.procs[next]);
      var r := processes[next];
      running_process := next;
      var remaining_burst := jobs[next].cpu[r.current_burst];
      if r.remaining_time > 0 {
        remaining_burst := r.remaining_time;
      }
      var run_time := if quantum < remaining_burst then quantum else remaining_burst;
      r := r.(state := RUNNING, wait_time := r.wait_time + (current_time - r.last_state_change),
              last_state_change := current_time, remaining_time := remaining_burst - run_time);
      Record(next, r, s.(queue := s.queue[1..], cpu := next), x);
      var kind := if run_time == remaining_burst then CPU_BURST_END else CPU_TIMEOUT;
      Announce(Event(current_time + run_time, next, kind), Dispatch(quantum, s));
    }

    /** What the popped event does, before the CPU is given away again. */
    method HandleEvent(e: Event)
      requires Reached(jobs, quantum, st) && Due(st, e.p) && e == EventOf(e.p, st.procs[e.p])
      requires Mirrors(st.(idle := IdleAt(st, e.time)), e.p) && current_time == e.time && Enabled(jobs, st, e.p)
      modifies this`running_process, processes, ready_queue, ready_queue.data, event_queue, event_queue.data
      ensures Mirrors(Handle(jobs, st, e.p), NOBODY)
    {
      ghost var s := st.(idle := IdleAt(st, e.time));
      HandleFacts(jobs, quantum, st, e.p);
      match e.kind {
        case PROCESS_ARRIVAL =>
          JoinOnArrival(e.p, s);
        case CPU_BURST_END =>
          BurstEnd(e.p, s);
        case IO_BURST_END =>
          BackToReady(e.p, s);
        case CPU_TIMEOUT =>
          running_process := -1;
          BackToReady(e.p, s.(cpu := FREE));
      }
    }

    method JoinOnArrival(p: nat, ghost s: State)
      requires Mirrors(s, p) && p < |jobs| && |s.queue| < MAX_PROCESSES && current_time >= 0
      requires s.procs[p].phase.Coming? && Settled(jobs[p], s.procs[p])
      modifies processes, ready_queue, ready_queue.data
      ensures Mirrors(State(s.now, s.procs[p := s.procs[p].(phase := Ready(current_time))], s.queue + [p], s.cpu, s.idle), NOBODY)
    {
      assert Matches(processes[p], jobs[p], s.procs[p]);
      if processes[p].current_burst == 0 {
        Record(p, processes[p].(remaining_time := jobs[p].cpu[0]), s, s.procs[p]);
        assert s.procs[p := s.procs[p]] == s.procs;
      }
      BackToReady(p, s);
    }

    /** The next event happens. */
    method Happen() returns (ghost p: nat, ghost h: State)
      requires Valid() && event_queue.size > 0
      modifies this`current_time, this`cpu_idle_time, this`running_process
      modifies processes, ready_queue, ready_queue.data, event_queue, event_queue.data
      ensures First(ByJoining, jobs, st, p) && Enabled(jobs, st, p) && h == Handle(jobs, st, p)
      ensures Mirrors(h, NOBODY) && Servable(jobs, quantum, h) && current_time == h.now
    {
      var e := TakeEvent();
      p := e.p;
      TurnFacts(ByJoining, jobs, quantum, st, p);
      h := Handle(jobs, st, p);
      AccountIdle(p);
      HandleEvent(e);
    }

    /** One turn of the loop: a step of the abstract scheduler. */
    method Turn() returns (ghost p: nat)
      requires Valid() && event_queue.size > 0
      modifies Repr
      ensures First(ByJoining, jobs, old(st), p) && Enabled(jobs, old(st), p) && st == Step(jobs, quantum, old(st), p)
      ensures Mirrors(st, NOBODY) && last_event_time == current_time == st.now
    {
      ghost var h;
      p, h := Happen();
      GiveCpu(h);
    }

    /** The main loop, from any state reached. */
    method Run()
      requires Valid() && current_time == st.now
      modifies Repr
      ensures Mirrors(st, NOBODY) && Inv(jobs, st) && Over(st) && current_time == st.now
      ensures JobsOk(jobs) && quantum > 0 && Inv(jobs, old(st)) && st == Result(ByJoining, jobs, quantum, old(st))
    {
      ReachedInv(jobs, quantum, st);
      while event_queue.size > 0
        invariant Valid() && current_time == st.now
        invariant Inv(jobs, st) && Result(ByJoining, jobs, quantum, st) == Result(ByJoining, jobs, quantum, old(st))
        decreases TotalLeft(jobs, st.procs)
      {
        ghost var s := st;
        ghost var p := Turn();
        FirstSteps(ByJoining, jobs, quantum, s, p);
        ResultStep(ByJoining, jobs, quantum, s, p);
        ReachedStep(jobs, quantum, s, p);
      }
      EmptyIsOver(st, event_queue.Contents());
    }

    /** The end of a turn. */
    method GiveCpu(ghost h: State)
      requires Mirrors(h, NOBODY) && Servable(jobs, quantum, h) && current_time == h.now
      modifies Repr
      ensures Mirrors(st, NOBODY) && st == Dispatch(quantum, h)
      ensures last_event_time == current_time == st.now
    {
      DispatchNext(h);
      st := Dispatch(quantum, h);
      last_event_time := current_time;
    }

    /** The loops before the main one: all records reset, all arrivals in the heap. */
    method Reset()
      requires Shape() && Fresh(processes[..], |jobs|)
      modifies processes
      ensures AllMatch(processes[..], jobs, Start(jobs).procs)
    {
      var i := 0;
      while i < |jobs|
        invariant 0 <= i <= |jobs| && Fresh(processes[..], |jobs|)
        invariant forall p | 0 <= p < i :: Matches(processes[p], jobs[p], Start(jobs).procs[p])
      {
        processes[i] := processes[i].(state := READY, current_burst := 0, remaining_time := jobs[i].cpu[0], last_state_change := 0);
        i := i + 1;
      }
    }

    method PushArrivals()
      requires Shape() && event_queue.Contents() == multiset{}
      modifies event_queue, event_queue.data
      ensures Shape() && Tied(event_queue.Contents(), Start(jobs).procs)
    {
      ghost var procs := Start(jobs).procs;
      var i := 0;
      while i < |jobs|
        invariant 0 <= i <= |jobs| && Shape()
        invariant Tied(event_queue.Contents(), procs[..i])
      {
        PushArrival(i, procs);
        i := i + 1;
      }
      assert procs[..i] == procs;
    }

    method PushArrival(i: nat, ghost procs: seq<Proc>)
      requires Shape() && i < |jobs| && procs == Start(jobs).procs && Tied(event_queue.Contents(), procs[..i])
      modifies event_queue, event_queue.data
      ensures Shape() && Tied(event_queue.Contents(), procs[..i + 1])
    {
      var e := Event(jobs[i].arrival, i, PROCESS_ARRIVAL);
      ArrivalTied(event_queue.Contents(), procs, i);
      TiedSize(event_queue.Contents(), procs[..i], NOBODY);
      TiedFits(Ids(jobs), event_queue.Contents() + multiset{e}, procs[..i + 1], NOBODY);
      event_queue.Push(e);
    }
  }

  lemma ArrivalTied(m: multiset<Event>, procs: seq<Proc>, i: nat)
    requires i < |procs| && Pending(procs[i]) && Tied(m, procs[..i])
    ensures Tied(m + multiset{EventOf(i, procs[i])}, procs[..i + 1])
  {
  }

  /** The record of a finished process shows its end, turnaround and wait. */
  predicate Final(r: PCB, j: Job, x: Proc)
    requires x.phase.Finished?
  {
    && r.state == FINISHED && r.wait_time == x.wait
    && r.completion_time == x.phase.t && r.turnaround_time == x.phase.t - j.arrival
  }

  /** The processes after the run of the abstract scheduler that the tie-break allows, as the records and
      totals of the program show it. */
  ghost predicate Reports(rs: seq<PCB>, jobs: seq<Job>, q: nat, total_time: int, cpu_idle_time: int)
    requires JobsOk(jobs) && q > 0 && |jobs| <= |rs|
  {
    StartInv(jobs);
    var r := Result(ByJoining, jobs, q, Start(jobs));
    && Done(jobs, r) && total_time == r.now && cpu_idle_time == r.idle
    && forall p | 0 <= p < |jobs| :: Final(rs[p], jobs[p], r.procs[p])
  }

  lemma ReportsAtEnd(rs: seq<PCB>, jobs: seq<Job>, q: nat, s: State)
    requires JobsOk(jobs) && q > 0 && Inv(jobs, s) && Over(s) && AllMatch(rs, jobs, s.procs)
    requires Inv(jobs, Start(jobs)) && s == Result(ByJoining, jobs, q, Start(jobs))
    ensures Reports(rs, jobs, q, s.now, s.idle)
  {
    OverMeansDone(jobs, s);
    forall p | 0 <= p < |jobs|
      ensures Matches(rs[p], jobs[p], s.procs[p]) && s.procs[p].phase.Finished?
    {
    }
  }

  /** One whole simulation. */
  method Schedule(jobs: seq<Job>, processes: array<PCB>, quantum: nat) returns (total_time: int, cpu_idle_time: int)
    requires JobsOk(jobs) && |jobs| <= MAX_PROCESSES == processes.Length && quantum > 0
    requires Fresh(processes[..], |jobs|)
    modifies processes
    ensures Reports(processes[..], jobs, quantum, total_time, cpu_idle_time)
  {
    var sim := new Simulation.Init(jobs, processes, quantum);
    sim.Reset();
    sim.PushArrivals();
    ReachedStart(jobs, quantum);
    sim.st := Start(jobs);
    sim.Run();
    ReportsAtEnd(processes[..], jobs, quantum, sim.st);
    total_time, cpu_idle_time := sim.current_time, sim.cpu_idle_time;
  }

  /** Forgets the previous simulation. */
  method ResetProcesses(processes: array<PCB>, n: nat)
    requires n <= processes.Length
    modifies processes
    ensures Fresh(processes[..], n)
    ensures forall p | 0 <= p < n :: processes[p] == PCB(READY, 0, 0, 0, 0, 0, 0)
    ensures processes[n..] == old(processes[n..])
  {
    var i := 0;
    while i < n
      invariant 0 <= i <= n
      invariant forall p | 0 <= p < i :: processes[p] == PCB(READY, 0, 0, 0, 0, 0, 0)
      invariant processes[n..] == old(processes[n..])
    {
      processes[i] := PCB(READY, 0, 0, 0, 0, 0, 0);
      i := i + 1;
    }
  }

  const INFINITY: nat := 1000000000

  /** Three simulations one after the other, on the same records. */
  method SimulateAll(jobs: seq<Job>, processes: array<PCB>) returns (totals: seq<int>, idles: seq<int>, results: seq<seq<PCB>>)
    requires JobsOk(jobs) && |jobs| <= MAX_PROCESSES == processes.Length && Fresh(processes[..], |jobs|)
    modifies processes
    ensures |totals| == |idles| == |results| == 3 && forall k | 0 <= k < 3 :: |jobs| <= |results[k]|
    ensures Reports(results[0], jobs, INFINITY, totals[0], idles[0])
    ensures Reports(results[1], jobs, 10, totals[1], idles[1])
    ensures Reports(results[2], jobs, 5, totals[2], idles[2])
  {
    var total, idle := Schedule(jobs, processes, INFINITY);
    totals, idles, results := [total], [idle], [processes[..]];
    ResetProcesses(processes, |jobs|);
    total, idle := Schedule(jobs, processes, 10);
    totals, idles, results := totals + [total], idles + [idle], results + [processes[..]];
    ResetProcesses(processes, |jobs|);
    total, idle := Schedule(jobs, processes, 5);
    totals, idles, results := totals + [total], idles + [idle], results + [processes[..]];
  }
}
