/** The event heap of the first simulator against the state of the scheduler: one event for each process
    that has one coming. */
module EventBook {
  import opened HeapOrder
  import opened EventHeap
  import opened SchedSpec
  import opened SchedRuns
  import opened SchedOrder
  import opened SchedTurns

  function KindOf(x: Proc): EventType {
    match x.phase
    case Coming(_) => PROCESS_ARRIVAL
    case Sleeping(_) => IO_BURST_END
    case _ => if x.rest == 0 then CPU_BURST_END else CPU_TIMEOUT
  }

  function EventOf(p: nat, x: Proc): Event {
    Event(x.phase.t, p, KindOf(x))
  }

  predicate Here(procs: seq<Proc>, e: Event) {
    e.p < |procs| && Pending(procs[e.p]) && e == EventOf(e.p, procs[e.p])
  }

  const NOBODY: int := -1

  /** m has just the events of the pending processes, once each, but for that of one process. */
  ghost predicate TiedBut(m: multiset<Event>, procs: seq<Proc>, but: int) {
    forall e: Event :: m[e] == if Here(procs, e) && e.p != but then 1 else 0
  }

  ghost predicate Tied(m: multiset<Event>, procs: seq<Proc>) {
    TiedBut(m, procs, NOBODY)
  }

  lemma TiedPop(m: multiset<Event>, rest: multiset<Event>, procs: seq<Proc>, e: Event)
    requires Tied(m, procs) && m == rest + multiset{e}
    ensures Here(procs, e) && TiedBut(rest, procs, e.p)
  {
  }

  lemma TiedPush(m: multiset<Event>, procs: seq<Proc>, p: nat, x: Proc)
    requires p < |procs| && TiedBut(m, procs, p) && Pending(x)
    ensures Tied(m + multiset{EventOf(p, x)}, procs[p := x])
  {
  }

  lemma TiedDrop(m: multiset<Event>, procs: seq<Proc>, p: nat, x: Proc)
    requires p < |procs| && TiedBut(m, procs, p) && !Pending(x)
    ensures Tied(m, procs[p := x])
  {
  }

  lemma TiedIdle(m: multiset<Event>, procs: seq<Proc>, p: nat)
    requires p < |procs| && Tied(m, procs) && !Pending(procs[p])
    ensures TiedBut(m, procs, p)
  {
  }

  lemma {:induction false} TiedSize(m: multiset<Event>, procs: seq<Proc>, but: int)
    requires TiedBut(m, procs, but)
    ensures |m| <= |procs|
    decreases |procs|
  {
    if procs == [] {
      assert m == multiset{};
    } else {
      var k := |procs| - 1;
      var e := EventOf(k, procs[k]);
      TiedSize(m - multiset{e}, procs[..k], but);
      assert |m| <= |m - multiset{e}| + 1;
    }
  }

  lemma TiedFits(ids: seq<int>, m: multiset<Event>, procs: seq<Proc>, but: int)
    requires TiedBut(m, procs, but) && OneRuns(procs) && |procs| <= |ids|
    ensures Fits(ids, m)
  {
  }

  /** In every reachable state the heap has at most one event for each process, and at most one of the
      two kinds that the CPU gives rise to; so there the comparison, cyclic in general, is a strict total
      order. */
  lemma ReachableHeap(jobs: seq<Job>, s: State, m: multiset<Event>, a: Event, b: Event, c: Event)
    requires Inv(jobs, s) && Tied(m, s.procs) && a in m && b in m && c in m
    ensures m[a] == 1 && Here(s.procs, a) && Here(s.procs, b) && Here(s.procs, c)
    ensures a.p == b.p ==> a == b
    ensures !Joins(a.kind) && !Joins(b.kind) ==> a == b
    ensures var ids := Ids(jobs);
            && (a == b || CompareEvents(ids, a, b) < 0 || CompareEvents(ids, b, a) < 0)
            && !(CompareEvents(ids, a, b) < 0 && CompareEvents(ids, b, a) < 0)
            && (CompareEvents(ids, a, b) < 0 && CompareEvents(ids, b, c) < 0 ==> CompareEvents(ids, a, c) < 0)
  {
    TiedFits(Ids(jobs), m, s.procs, NOBODY);
    forall x | x in m
      ensures Here(s.procs, x)
    {
    }
    CompareIsTotal(Ids(jobs), m, a, b, c);
  }

  /** An event that none of the heap compares before is that of the process that comes first. */
  lemma PoppedIsFirst(jobs: seq<Job>, s: State, m: multiset<Event>, e: Event)
    requires Inv(jobs, s) && Tied(m, s.procs) && e in m
    requires forall f | f in m :: f.p < |jobs| && CompareEvents(Ids(jobs), f, e) >= 0
    ensures Here(s.procs, e) && First(ByJoining, jobs, s, e.p)
  {
    var ids := Ids(jobs);
    assert Here(s.procs, e);
    TiedFits(ids, m, s.procs, NOBODY);
    forall o | 0 <= o < |jobs| && Pending(s.procs[o]) && o != e.p
      ensures Less(KeyAt(ByJoining, jobs, s.procs, e.p), KeyAt(ByJoining, jobs, s.procs, o))
    {
      var f := EventOf(o, s.procs[o]);
      assert Here(s.procs, f) && m[f] == 1;
      CompareIsOrder(ids, f, e);
      assert ids[o] != ids[e.p];
    }
  }

  lemma EmptyIsOver(s: State, m: multiset<Event>)
    requires Tied(m, s.procs) && m == multiset{}
    ensures Over(s)
  {
    forall p | 0 <= p < |s.procs|
      ensures !Pending(s.procs[p])
    {
      assert m[EventOf(p, s.procs[p])] == 0;
    }
  }
}
