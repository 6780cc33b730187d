/** The second simulator: job records, ready queue and a heap of processes, changed in place event by event. */
module JobScheduler {
  import opened ReadyQueue
  import opened JobHeap
  import opened SchedSpec
  import opened SchedRuns
  import opened SchedOrder
  import opened SchedTurns

  const ARRIVAL: int := 1
  const CPUBURSTEND: int := 2
  const TIMEOUT: int := 3

  /** A line reported when a process exits. */
  datatype Exit = Exit(p: nat, time: int, tat: int, wtt: int)

  /** The record of a process at point x of job j. */
  predicate Matches(r: Rec, j: Job, x: Proc) {
    && r.bno == (if x.phase.Finished? then x.burst - 1 else x.burst) && r.rbt == x.rest
    && (Pending(x) ==> r.time == x.phase.t && r.state == Class(ByState, x))
  }

  predicate AllMatch(js: seq<Rec>, jobs: seq<Job>, procs: seq<Proc>) {
    && |procs| == |jobs| == |js|
    && forall p | 0 <= p < |jobs| :: Matches(js[p], jobs[p], procs[p])
  }

  lemma MatchUpdate(js: seq<Rec>, jobs: seq<Job>, procs: seq<Proc>, p: nat, r: Rec, x: Proc)
    requires AllMatch(js, jobs, procs) && p < |jobs| && Matches(r, jobs[p], x)
    ensures AllMatch(js[p := r], jobs, procs[p := x])
  {
  }

  lemma MatchSame(js: seq<Rec>, jobs: seq<Job>, procs: seq<Proc>, p: nat, x: Proc)
    requires AllMatch(js, jobs, procs) && p < |jobs| && Matches(js[p], jobs[p], x)
    ensures AllMatch(js, jobs, procs[p := x])
  {
  }

  // ----- the heap holds the pending processes

  const NOBODY: int := -1

  ghost predicate TiedBut(m: multiset<nat>, procs: seq<Proc>, but: int) {
    forall p: nat :: m[p] == if p < |procs| && Pending(procs[p]) && p != but then 1 else 0
  }

  lemma {:induction false} FewInHeap(m: multiset<nat>, n: nat)
    requires forall p: nat :: m[p] <= if p < n then 1 else 0
    ensures |m| <= n
    decreases n
  {
    if n == 0 {
      assert m == multiset{};
    } else {
      FewInHeap(m - multiset{n - 1}, n - 1);
      assert |m| <= |m - multiset{n - 1}| + 1;
    }
  }

  lemma RoomInHeap(m: multiset<nat>, procs: seq<Proc>, p: nat)
    requires TiedBut(m, procs, p) && p < |procs|
    ensures |m| < |procs|
  {
    FewInHeap(m + multiset{p}, |procs|);
  }

  lemma TiedPop(m: multiset<nat>, rest: multiset<nat>, procs: seq<Proc>, p: nat)
    requires TiedBut(m, procs, NOBODY) && m == rest + multiset{p}
    ensures p < |procs| && Pending(procs[p]) && TiedBut(rest, procs, p)
  {
  }

  lemma TiedPush(m: multiset<nat>, procs: seq<Proc>, p: nat)
    requires p < |procs| && TiedBut(m, procs, p) && Pending(procs[p])
    ensures TiedBut(m + multiset{p}, procs, NOBODY)
  {
  }

  lemma TiedOther(m: multiset<nat>, procs: seq<Proc>, p: nat, x: Proc)
    requires p < |procs| && TiedBut(m, procs, p)
    ensures TiedBut(m, procs[p := x], p)
    ensures !Pending(x) ==> TiedBut(m, procs[p := x], NOBODY)
  {
  }

  /** The process at the root of the heap is the one that comes first. */
  lemma PoppedIsFirst(jobs: seq<Job>, q: nat, s: State, ids: seq<int>, js: seq<Rec>, m: multiset<nat>, p: nat)
    requires Reached(jobs, q, s) && q > 0 && AllMatch(js, jobs, s.procs) && TiedBut(m, s.procs, NOBODY) && p in m
    requires |ids| == |jobs| && forall o | 0 <= o < |jobs| :: ids[o] == jobs[o].id
    requires forall o | o in m :: o < |ids| && EventCmp(ids, js, o, p) >= 0
    ensures First(ByState, jobs, s, p)
  {
  }

  lemma EmptyIsOver(s: State, m: multiset<nat>)
    requires TiedBut(m, s.procs, NOBODY) && m == multiset{}
    ensures Over(s)
  {
  }

  // ----- what has been reported

  /** The waits of the processes that have finished. */
  function FinishedWait(procs: seq<Proc>): int {
    if procs == [] then 0
    else (if procs[0].phase.Finished? then procs[0].wait else 0) + FinishedWait(procs[1..])
  }

  lemma {:induction false} FinishedWaitUpdate(procs: seq<Proc>, p: nat, x: Proc)
    requires p < |procs| && !procs[p].phase.Finished?
    ensures FinishedWait(procs[p := x]) == FinishedWait(procs) + if x.phase.Finished? then x.wait else 0
  {
    if p == 0 {
      assert procs[p := x][1..] == procs[1..];
    } else {
      assert procs[p := x][1..] == procs[1..][p - 1 := x];
      FinishedWaitUpdate(procs[1..], p - 1, x);
    }
  }

  /** One line for each process that has finished, with its time of exit, turnaround and wait. */
  ghost predicate Logged(exits: seq<Exit>, twt: int, jobs: seq<Job>, procs: seq<Proc>) {
    && |procs| == |jobs|
    && (forall k | 0 <= k < |exits| ::
          var e := exits[k];
          && e.p < |procs| && procs[e.p].phase.Finished? && e.time == procs[e.p].phase.t
          && e.tat == e.time - jobs[e.p].arrival && e.wtt == procs[e.p].wait)
    && (forall i, k | 0 <= i < k < |exits| :: exits[i].p != exits[k].p)
    && (forall p | 0 <= p < |procs| && procs[p].phase.Finished? :: exists k :: 0 <= k < |exits| && exits[k].p == p)
    && twt == FinishedWait(procs)
  }

  lemma LoggedUpdate(exits: seq<Exit>, twt: int, jobs: seq<Job>, procs: seq<Proc>, p: nat, x: Proc)
    requires Logged(exits, twt, jobs, procs) && p < |procs| && !procs[p].phase.Finished? && !x.phase.Finished?
    ensures Logged(exits, twt, jobs, procs[p := x])
  {
    FinishedWaitUpdate(procs, p, x);
  }

  lemma LoggedExit(exits: seq<Exit>, twt: int, jobs: seq<Job>, procs: seq<Proc>, line: Exit, x: Proc)
    requires Logged(exits, twt, jobs, procs) && line.p < |procs| && !procs[line.p].phase.Finished? && x.phase.Finished?
    requires line.time == x.phase.t && line.tat == line.time - jobs[line.p].arrival && line.wtt == x.wait
    ensures Logged(exits + [line], twt + line.wtt, jobs, procs[line.p := x])
  {
    var all := exits + [line];
    var after := procs[line.p := x];
    FinishedWaitUpdate(procs, line.p, x);
    forall o | 0 <= o < |after| && after[o].phase.Finished?
      ensures exists k :: 0 <= k < |all| && all[k].p == o
    {
      if o == line.p {
        assert all[|exits|].p == o;
      } else {
        var k :| 0 <= k < |exits| && exits[k].p == o;
        assert all[k].p == o;
      }
    }
  }

  /** Adds up an array of burst times. */
  method AddUp(a: seq<nat>) returns (total: nat)
    ensures total == Sum(a)
  {
    total := 0;
    var i := 0;
    while i < |a|
      invariant 0 <= i <= |a| && total == Sum(a[..i])
    {
      SumNext(a, i);
      total := total + a[i];
      i := i + 1;
    }
    assert a[..i] == a;
  }

  method BurstTime(j: Job) returns (tbt: nat)
    ensures tbt == Sum(j.cpu) + Sum(j.io)
  {
    var cpu := AddUp(j.cpu);
    var io := AddUp(j.io);
    tbt := cpu + io;
  }

  /** A heap order depends on nothing but the records of the processes in the heap. */
  lemma KeysUnchanged(ids: seq<int>, js: seq<Rec>, h: seq<nat>, p: nat, r: Rec)
    requires |ids| == |js| && Good(|ids|, h) && p < |js| && p !in multiset(h)
    ensures Keys(ids, js[p := r], h) == Keys(ids, js, h)
  {
  }

  lemma {:induction false} AllInHeap(n: nat)
    ensures forall p: nat :: multiset(Numbers(n))[p] == if p < n then 1 else 0
  {
    if n > 0 {
      AllInHeap(n - 1);
      assert Numbers(n) == Numbers(n - 1) + [n - 1];
    }
  }

  lemma StartFacts(jobs: seq<Job>)
    requires JobsOk(jobs)
    ensures TiedBut(multiset(Numbers(|jobs|)), Start(jobs).procs, NOBODY)
    ensures Logged([], 0, jobs, Start(jobs).procs)
  {
    AllInHeap(|jobs|);
    NobodyFinished(Start(jobs).procs);
  }

  lemma {:induction false} NobodyFinished(procs: seq<Proc>)
    requires forall p | 0 <= p < |procs| :: !procs[p].phase.Finished?
    ensures FinishedWait(procs) == 0
  {
    if procs != [] {
      NobodyFinished(procs[1..]);
    }
  }

  class Simulation {
    const jobs: seq<Job>
    const J: array<Rec>
    const EQ: EventQ
    const RQ: ReadyQ
    const q: nat
    var t: int
    var twt: int
    var cpufree: bool
    var exits: seq<Exit>
    /** The state of the abstract scheduler this stands for. */
    ghost var st: State

    ghost const Repr: set<object> := {this, J, EQ, EQ.H, RQ, RQ.A}

    ghost predicate Shape()
      reads J, EQ, EQ.H, RQ, RQ.A
    {
      && JobsOk(jobs) && q > 0 && J.Length == |jobs|
      && EQ.J == J && EQ.ids == Ids(jobs) && EQ.H.Length == |jobs| && EQ.Valid() && EQ.Ordered()
      && RQ.Valid() && RQ.MAXSIZE == |jobs| + 1
    }

    /** Everything is as in state s, process `but` being out of the heap. */
    ghost predicate Mirrors(s: State, but: int)
      reads this`cpufree, this`twt, this`exits, J, EQ, EQ.H, RQ, RQ.A
    {
      && Shape()
      && AllMatch(J[..], jobs, s.procs)
      && RQ.Contents == s.queue && (cpufree <==> s.cpu == FREE)
      && TiedBut(EQ.Contents(), s.procs, but)
      && Logged(exits, twt, jobs, s.procs)
    }

    ghost predicate Valid()
      reads Repr
    {
      Mirrors(st, NOBODY) && Reached(jobs, q, st)
    }

    /** All processes in the heap, none ready, the CPU free. */
    constructor (jobs: seq<Job>, J: array<Rec>, q: nat)
      requires JobsOk(jobs) && q > 0 && AllMatch(J[..], jobs, Start(jobs).procs)
      ensures this.jobs == jobs && this.J == J && this.q == q && fresh(Repr - {J})
      ensures Valid() && st == Start(jobs) && t == 0
    {
      this.jobs, this.J, this.q := jobs, J, q;
      EQ := new EventQ(Ids(jobs), J);
      RQ := new ReadyQ(|jobs|);
      t, twt, cpufree, exits := 0, 0, true, [];
      st := Start(jobs);
      new;
      StartFacts(jobs);
      ReachedStart(jobs, q);
      EQ.MakeHeap();
    }

    /** Changes the record of process p, which is out of the heap and has not finished. */
    method Record(p: nat, r: Rec, ghost s: State, ghost x: Proc)
      requires Mirrors(s, p) && p < |jobs| && Matches(r, jobs[p], x)
      requires !s.procs[p].phase.Finished? && !x.phase.Finished?
      modifies J
      ensures Mirrors(s.(procs := s.procs[p := x]), p) && J[p] == r
    {
      MatchUpdate(J[..], jobs, s.procs, p, r, x);
      LoggedUpdate(exits, twt, jobs, s.procs, p, x);
      TiedOther(EQ.Contents(), s.procs, p, x);
      KeysUnchanged(EQ.ids, J[..], EQ.H[..EQ.size], p, r);
      ghost var js := J[..];
      J[p] := r;
      assert J[..] == js[p := r];
    }

    /** Puts process p into the heap. */
    method Announce(p: nat, ghost s: State)
      requires Mirrors(s, p) && p < |jobs| && Pending(s.procs[p])
      modifies EQ, EQ.H
      ensures Mirrors(s, NOBODY)
    {
      RoomInHeap(EQ.Contents(), s.procs, p);
      TiedPush(EQ.Contents(), s.procs, p);
      EQ.Insert(p);
    }

    /** The process whose event comes first. */
    method FirstInHeap() returns (p: nat)
      requires Valid() && EQ.size > 0
      ensures First(ByState, jobs, st, p) && p == EQ.H[0]
    {
      var ok;
      ok, p := EQ.First();
      assert p in EQ.H[..EQ.size];
      PoppedIsFirst(jobs, q, st, EQ.ids, J[..], EQ.Contents(), p);
    }

    /** Takes that process out. */
    method TakeEvent() returns (p: nat)
      requires Valid() && EQ.size > 0
      modifies this`t, EQ, EQ.H
      ensures First(ByState, jobs, st, p) && t == st.procs[p].phase.t
      ensures Mirrors(st, p)
    {
      ghost var m := EQ.Contents();
      p := FirstInHeap();
      var ok := EQ.DelMin();
      assert ok;
      TiedPop(m, EQ.Contents(), st.procs, p);
      assert Matches(J[p], jobs[p], st.procs[p]);
      t := J[p].time;
    }

    /** Process p, out of the heap, joins the ready queue now. */
    method Join(p: nat, ghost s: State)
      requires Mirrors(s, p) && p < |jobs| && |s.queue| < |jobs| && t >= 0 && !s.procs[p].phase.Finished?
      modifies RQ, RQ.A
      ensures Mirrors(State(s.now, s.procs[p := s.procs[p].(phase := Ready(t))], s.queue + [p], s.cpu, s.idle), NOBODY)
    {
      ghost var x := s.procs[p].(phase := Ready(t));
      MatchSame(J[..], jobs, s.procs, p, x);
      LoggedUpdate(exits, twt, jobs, s.procs, p, x);
      TiedOther(EQ.Contents(), s.procs, p, x);
      var ok := RQ.Enqueue(p);
      assert ok;
    }

    /** The last burst of process p ends now: its wait is its turnaround less all its bursts. */
    method ExitNow(p: nat, ghost s: State)
      requires Mirrors(s, p) && p < |jobs| && JobOk(jobs[p]) && t >= 0
      requires s.procs[p].phase.Running? && s.procs[p].burst == |jobs[p].cpu| - 1 && s.procs[p].rest == 0
      requires s.procs[p].wait == (t - jobs[p].arrival) - (Sum(jobs[p].cpu) + Sum(jobs[p].io))
      modifies this`twt, this`exits
      ensures Mirrors(s.(procs := s.procs[p := Ended(jobs[p], s.procs[p], t)]), NOBODY)
    {
      ghost var x := Ended(jobs[p], s.procs[p], t);
      var tat := t - jobs[p].arrival;
      var tbt := BurstTime(jobs[p]);
      var wtt := tat - tbt;
      assert Matches(J[p], jobs[p], s.procs[p]);
      Report(Exit(p, t, tat, wtt), s, x);
    }

    /** Adds a line to the report, for a process that is out of the heap. */
    method Report(line: Exit, ghost s: State, ghost x: Proc)
      requires Mirrors(s, line.p) && line.p < |jobs| && !s.procs[line.p].phase.Finished? && x.phase.Finished?
      requires Matches(J[line.p], jobs[line.p], x)
      requires line.time == x.phase.t && line.tat == line.time - jobs[line.p].arrival && line.wtt == x.wait
      modifies this`twt, this`exits
      ensures Mirrors(s.(procs := s.procs[line.p := x]), NOBODY)
    {
      ghost var after := s.procs[line.p := x];
      MatchSame(J[..], jobs, s.procs, line.p, x);
      TiedOther(EQ.Contents(), s.procs, line.p, x);
      LoggedExit(exits, twt, jobs, s.procs, line, x);
      exits := exits + [line];
      twt := twt + line.wtt;
      assert Logged(exits, twt, jobs, after);
    }

    /** Another burst of process p ends now, and its I/O begins. */
    method StartIo(p: nat, ghost s: State)
      requires Mirrors(s, p) && p < |jobs| && JobOk(jobs[p]) && t >= 0
      requires s.procs[p].phase.Running? && s.procs[p].burst < |jobs[p].cpu| - 1
      modifies J, EQ, EQ.H
      ensures Mirrors(s.(procs := s.procs[p := Ended(jobs[p], s.procs[p], t)]), NOBODY)
    {
      ghost var x := Ended(jobs[p], s.procs[p], t);
      assert Matches(J[p], jobs[p], s.procs[p]);
      var bno := J[p].bno;
      Record(p, Rec(t + jobs[p].io[bno], ARRIVAL, bno + 1, jobs[p].cpu[bno + 1]), s, x);
      Announce(p, s.(procs := s.procs[p := x]));
    }

    /** The CPU's event of process p: its burst ends, or its quantum. */
    method CpuEvent(p: nat, ghost s: State)
      requires Mirrors(s, p) && p < |jobs| && Settled(jobs[p], s.procs[p]) && t == s.procs[p].phase.t
      requires s.procs[p].phase.Running? && s.procs[p].burst < |jobs[p].cpu| && |s.queue| < |jobs|
      modifies this`t, this`twt, this`exits, this`cpufree, J, EQ, EQ.H, RQ, RQ.A
      ensures t == old(t)
      ensures Mirrors(if s.procs[p].rest == 0 then
                        State(s.now, s.procs[p := Ended(jobs[p], s.procs[p], old(t))], s.queue, FREE, s.idle)
                      else
                        State(s.now, s.procs[p := s.procs[p].(phase := Ready(old(t)))], s.queue + [p], FREE, s.idle), NOBODY)
    {
      assert Matches(J[p], jobs[p], s.procs[p]);
      cpufree := true;
      ghost var f := s.(cpu := FREE);
      if J[p].rbt == 0 {
        if J[p].bno == |jobs[p].cpu| - 1 {
          ExitFacts(jobs[p], s.procs[p]);
          ExitNow(p, f);
        } else {
          StartIo(p, f);
        }
      } else {
        Join(p, f);
      }
    }

    /** What the event of process p does, before the CPU is given away again. */
    method HandleEvent(p: nat)
      requires Reached(jobs, q, st) && Due(st, p) && t == st.procs[p].phase.t
      requires Mirrors(st, p) && Enabled(jobs, st, p)
      modifies this`t, this`twt, this`exits, this`cpufree, J, EQ, EQ.H, RQ, RQ.A
      ensures Mirrors(Handle(jobs, st, p), NOBODY) && t == old(t)
    {
      HandleFacts(jobs, q, st, p);
      assert Matches(J[p], jobs[p], st.procs[p]);
      ghost var s := st.(idle := IdleAt(st, t));
      if J[p].state == ARRIVAL {
        Join(p, s);
      } else if J[p].state == CPUBURSTEND || J[p].state == TIMEOUT {
        CpuEvent(p, s);
      } else {
        assert false;
      }
    }

    /** The head of the ready queue gets a free CPU. */
    method DispatchNext(ghost s: State)
      requires Mirrors(s, NOBODY) && Servable(jobs, q, s) && t == s.now
      modifies this`cpufree, J, EQ, EQ.H, RQ
      ensures Mirrors(Dispatch(q, s), NOBODY)
    {
      if cpufree {
        var none := RQ.IsEmpty();
        if !none {
          var ok, p := RQ.Front();
          ok := RQ.Dequeue();
          assert ok;
          Serve(p, s);
        }
      }
    }

    method Serve(p: nat, ghost s: State)
      requires Servable(jobs, q, s) && s.cpu == FREE && s.queue != [] && p == s.queue[0]
      requires Mirrors(s.(queue := s.queue[1..]), NOBODY) && t == s.now
      modifies this`cpufree, J, EQ, EQ.H
      ensures Mirrors(Dispatch(q, s), NOBODY)
    {
      ghost var x := Started(s.procs[p], q, s.now);
      assert Matches(J[p], jobs[p], s.procs[p]);
      var cputime := if J[p].rbt <= q then J[p].rbt else q;
      var rbt := J[p].rbt - cputime;
      cpufree := false;
      Record(p, Rec(t + cputime, if rbt > 0 then TIMEOUT else CPUBURSTEND, J[p].bno, rbt),
             s.(queue := s.queue[1..], cpu := p), x);
      Announce(p, Dispatch(q, s));
    }

    /** The next event happens. */
    method Happen() returns (ghost p: nat, ghost h: State)
      requires Valid() && EQ.size > 0
      modifies this`t, this`twt, this`exits, this`cpufree, J, EQ, EQ.H, RQ, RQ.A
      ensures First(ByState, jobs, st, p) && Enabled(jobs, st, p) && h == Handle(jobs, st, p)
      ensures Mirrors(h, NOBODY) && Servable(jobs, q, h) && t == h.now
    {
      var who := TakeEvent();
      p := who;
      TurnFacts(ByState, jobs, q, st, p);
      h := Handle(jobs, st, p);
      HandleEvent(who);
    }

    /** One turn of the loop: a step of the abstract scheduler. */
    method Turn() returns (ghost p: nat)
      requires Valid() && EQ.size > 0
      modifies Repr
      ensures First(ByState, jobs, old(st), p) && Enabled(jobs, old(st), p) && st == Step(jobs, q, old(st), p)
      ensures Mirrors(st, NOBODY) && t == st.now
    {
      ghost var h;
      p, h := Happen();
      GiveCpu(h);
    }

    /** The end of a turn. */
    method GiveCpu(ghost h: State)
      requires Mirrors(h, NOBODY) && Servable(jobs, q, h) && t == h.now
      modifies this`st, this`cpufree, J, EQ, EQ.H, RQ
      ensures Mirrors(st, NOBODY) && st == Dispatch(q, h) && t == st.now
    {
      DispatchNext(h);
      st := Dispatch(q, h);
    }

    /** The main loop, from any state reached. */
    method Run()
      requires Valid() && t == st.now
      modifies Repr
      ensures Mirrors(st, NOBODY) && Inv(jobs, st) && Over(st) && t == st.now
      ensures JobsOk(jobs) && q > 0 && Inv(jobs, old(st)) && st == Result(ByState, jobs, q, old(st))
    {
      ReachedInv(jobs, q, st);
      while EQ.size > 0
        invariant Valid() && t == st.now
        invariant Inv(jobs, st) && Result(ByState, jobs, q, st) == Result(ByState, jobs, q, old(st))
        decreases TotalLeft(jobs, st.procs)
      {
        ghost var s := st;
        ghost var p := Turn();
        FirstSteps(ByState, jobs, q, s, p);
        ResultStep(ByState, jobs, q, s, p);
        ReachedStep(jobs, q, s, p);
      }
      EmptyIsOver(st, EQ.Contents());
    }
  }

  lemma ExitFacts(j: Job, x: Proc)
    requires Settled(j, x) && x.phase.Running? && x.rest == 0 && x.burst == |j.cpu| - 1
    ensures x.wait == (x.phase.t - j.arrival) - (Sum(j.cpu) + Sum(j.io))
  {
    SumNext(j.cpu, x.burst);
    assert j.cpu[..x.burst + 1] == j.cpu && j.io[..x.burst] == j.io;
  }

  /** What the run of the abstract scheduler that the tie-break allows comes to, as the program reports it:
      a line for each process, the sum of the waits, the final time, and the CPU's idle time. */
  ghost predicate Reports(exits: seq<Exit>, twt: int, jobs: seq<Job>, q: nat, t: int, idle: int)
    requires JobsOk(jobs) && q > 0
  {
    StartInv(jobs);
    var r := Result(ByState, jobs, q, Start(jobs));
    Done(jobs, r) && t == r.now && idle == r.idle && Logged(exits, twt, jobs, r.procs)
  }

  /** The loop that sets every job to its arrival. */
  method ResetJobs(jobs: seq<Job>, J: array<Rec>)
    requires JobsOk(jobs) && J.Length == |jobs|
    modifies J
    ensures AllMatch(J[..], jobs, Start(jobs).procs)
  {
    var i := 0;
    while i < |jobs|
      invariant 0 <= i <= |jobs|
      invariant forall p | 0 <= p < i :: Matches(J[p], jobs[p], Start(jobs).procs[p])
    {
      J[i] := Rec(jobs[i].arrival, ARRIVAL, 0, jobs[i].cpu[0]);
      i := i + 1;
    }
  }

  /** Adds up the CPU bursts of all jobs. */
  method UsedCpu(jobs: seq<Job>) returns (cpuutil: int)
    ensures cpuutil == AllCpu(jobs)
  {
    cpuutil := 0;
    var p := 0;
    while p < |jobs|
      invariant 0 <= p <= |jobs| && cpuutil + AllCpu(jobs[p..]) == AllCpu(jobs)
    {
      assert jobs[p..][1..] == jobs[p + 1..];
      var used := AddUp(jobs[p].cpu);
      cpuutil := cpuutil + used;
      p := p + 1;
    }
  }

  /** One whole simulation. */
  method Schedule(jobs: seq<Job>, J: array<Rec>, q: nat) returns (exits: seq<Exit>, twt: int, t: int, idle: int)
    requires JobsOk(jobs) && J.Length == |jobs| && q > 0
    modifies J
    ensures Reports(exits, twt, jobs, q, t, idle)
  {
    ResetJobs(jobs, J);
    var sim := new Simulation(jobs, J, q);
    sim.Run();
    OverMeansDone(jobs, sim.st);
    var cpuutil := UsedCpu(jobs);
    exits, twt, t, idle := sim.exits, sim.twt, sim.t, sim.t - cpuutil;
  }

  /** Three simulations one after the other, on the same records. */
  method SimulateAll(jobs: seq<Job>, J: array<Rec>) returns (totals: seq<int>, idles: seq<int>, waits: seq<int>, lines: seq<seq<Exit>>)
    requires JobsOk(jobs) && J.Length == |jobs|
    modifies J
    ensures |totals| == |idles| == |waits| == |lines| == 3
    ensures Reports(lines[0], waits[0], jobs, 1000000000, totals[0], idles[0])
    ensures Reports(lines[1], waits[1], jobs, 10, totals[1], idles[1])
    ensures Reports(lines[2], waits[2], jobs, 5, totals[2], idles[2])
  {
    var e0, w0, t0, i0 := Schedule(jobs, J, 1000000000);
    var e1, w1, t1, i1 := Schedule(jobs, J, 10);
    var e2, w2, t2, i2 := Schedule(jobs, J, 5);
    totals, idles, waits, lines := [t0, t1, t2], [i0, i1, i2], [w0, w1, w2], [e0, e1, e2];
  }
}
