/** The demand-paging simulator over its arrays. */
module Paging {
  import opened Options
  import opened PageEntry
  import opened SearchTrace
  import opened PagingSpec
  import opened PagingRuns
  import opened Ring

  /** Frames and page tables. */
  class Machine {
    const n: nat
    const free_frames: array<nat>
    var num_free_frames: nat
    const page_table: array2<nat>
    const allocated_frames: array<nat>
    var total_page_accesses: nat
    var total_page_faults: nat
    ghost const Repr: set<object>
    ghost var M: Mem

    /** The arrays hold the abstract memory M. */
    ghost predicate Tied()
      reads this, Repr
    {
      && Repr == {this, free_frames, page_table, allocated_frames}
      && free_frames.Length == USER_FRAMES && allocated_frames.Length == n && free_frames != allocated_frames
      && page_table.Length0 == n == |M.tables| && page_table.Length1 == PAGE_TABLE_SIZE
      && num_free_frames == |M.free| <= USER_FRAMES
      && (forall k | 0 <= k < num_free_frames :: free_frames[k] == M.free[k] < USER_FRAMES)
      && (forall p, g | 0 <= p < n && 0 <= g < PAGE_TABLE_SIZE ::
            (IsValid(page_table[p, g]) <==> g in M.tables[p]))
      && (forall p, g | 0 <= p < n && 0 <= g < PAGE_TABLE_SIZE && g in M.tables[p] ::
            Rest(page_table[p, g]) == M.tables[p][g] < USER_FRAMES)
      && (forall p, g | 0 <= p < n && 0 <= g < PAGE_TABLE_SIZE :: page_table[p, g] < 0x10000)
    }

    ghost predicate Valid()
      reads this, Repr
    {
      Tied() && forall p | 0 <= p < n :: allocated_frames[p] == |M.tables[p]|
    }

    constructor (n: nat)
      ensures Valid() && fresh(Repr) && M == Fresh(n) && this.n == n
      ensures total_page_accesses == total_page_faults == 0
    {
      this.n := n;
      free_frames := new nat[USER_FRAMES](k => k);
      page_table := new nat[n, PAGE_TABLE_SIZE]((_, _) => 0);
      allocated_frames := new nat[n](_ => 0);
      num_free_frames := USER_FRAMES;
      total_page_accesses, total_page_faults := 0, 0;
      M := Fresh(n);
      Repr := {this, free_frames, page_table, allocated_frames};
      new;
      FreshPartition(n);
    }

    /** Puts the frame on top of the pool behind a missing page, if there is one. */
    method LoadPage(p: nat, page: nat) returns (ok: bool)
      requires Valid() && p < n && page < PAGE_TABLE_SIZE && page !in M.tables[p]
      modifies Repr
      ensures Valid()
      ensures ok <==> old(M).free != []
      ensures M == if ok then Load(old(M), p, page) else old(M)
      ensures total_page_accesses == old(total_page_accesses) && total_page_faults == old(total_page_faults)
    {
      if num_free_frames == 0 {
        return false;
      }
      num_free_frames := num_free_frames - 1;
      var frame := free_frames[num_free_frames];
      page_table[p, page] := VALID + frame;
      allocated_frames[p] := allocated_frames[p] + 1;
      M := Load(M, p, page);
      ok := true;
    }

    /** Gives a process with nothing in memory its essential pages; fails when frames run out. */
    method LoadProcessEssentialPages(p: nat) returns (ok: bool)
      requires Valid() && p < n && M.tables[p] == map[]
      modifies Repr
      ensures Valid()
      ensures ok <==> ESSENTIAL_PAGES <= |old(M).free|
      ensures ok ==> M == LoadEssential(old(M), p, 0)
      ensures total_page_accesses == old(total_page_accesses) && total_page_faults == old(total_page_faults)
    {
      for i := 0 to ESSENTIAL_PAGES
        invariant Valid()
        invariant |M.tables| == n && forall g :: g in M.tables[p] <==> 0 <= g < i
        invariant |M.free| == |old(M).free| - i
        invariant ESSENTIAL_PAGES <= |old(M).free| ==> LoadEssential(M, p, i) == old(LoadEssential(M, p, 0))
        invariant total_page_accesses == old(total_page_accesses) && total_page_faults == old(total_page_faults)
      {
        var loaded := LoadPage(p, i);
        if !loaded {
          return false;
        }
      }
      ok := true;
    }

    /** Gives every page of a process back, in page order. */
    method SwapOutProcess(p: nat)
      requires Valid() && p < n && Partition(M) && InTable(M)
      modifies Repr
      ensures Valid() && M == SwapOut(old(M), p)
      ensures total_page_accesses == old(total_page_accesses) && total_page_faults == old(total_page_faults)
    {
      SwapOutFacts(M, p);
      for i := 0 to PAGE_TABLE_SIZE
        invariant Tied() && Partition(M) && Unload(M, p, i) == old(SwapOut(M, p))
        invariant forall q | 0 <= q < n && q != p :: allocated_frames[q] == |M.tables[q]|
        invariant total_page_accesses == old(total_page_accesses) && total_page_faults == old(total_page_faults)
      {
        UnloadOne(p, i);
      }
      allocated_frames[p] := 0;
    }

    method UnloadOne(p: nat, page: nat)
      requires Tied() && p < n && page < PAGE_TABLE_SIZE && Partition(M)
      modifies this`num_free_frames, this`M, free_frames, page_table
      ensures Tied() && Partition(M) && Unload(M, p, page + 1) == old(Unload(M, p, page))
      ensures forall q | 0 <= q < n && q != p :: M.tables[q] == old(M.tables[q])
    {
      if IsValid(page_table[p, page]) {
        RoomInPool(M, p, page);
        GiveBackPartition(M, p, page);
        GiveBackOne(p, page);
      }
    }

    method GiveBackOne(p: nat, page: nat)
      requires Tied() && p < n && page < PAGE_TABLE_SIZE && page in M.tables[p] && num_free_frames < USER_FRAMES
      modifies this`num_free_frames, this`M, free_frames, page_table
      ensures Tied() && M == GiveBack(old(M), p, page)
    {
      var frame := Rest(page_table[p, page]);
      free_frames[num_free_frames] := frame;
      num_free_frames := num_free_frames + 1;
      page_table[p, page] := Rest(page_table[p, page]);
      M := GiveBack(M, p, page);
    }

    /** One access, ahead of the rest of a search: counts it, and on a fault loads the page. */
    method Access(p: nat, page: nat, ghost rest: seq<nat>) returns (ok: bool)
      requires Valid() && p < n && page < PAGE_TABLE_SIZE
      modifies Repr
      ensures Valid()
      ensures Onward(M, p, rest, ok, total_page_accesses, total_page_faults) ==
              old(Onward(M, p, [page] + rest, true, total_page_accesses, total_page_faults))
    {
      assert ([page] + rest)[1..] == rest;
      total_page_accesses := total_page_accesses + 1;
      ok := true;
      if !IsValid(page_table[p, page]) {
        total_page_faults := total_page_faults + 1;
        ok := LoadPage(p, page);
      }
    }

    /** One round of the binary search. */
    method Probe(p: nat, left: nat, right: nat, key: int) returns (ok: bool, left': nat, right': nat)
      requires Valid() && p < n && left < right < MAX_SIZE
      modifies Repr
      ensures Valid()
      ensures Onward(M, p, Pages(left', right', key), ok, total_page_accesses, total_page_faults) ==
              old(Onward(M, p, Pages(left, right, key), true, total_page_accesses, total_page_faults))
      ensures right' <= right && right' - left' < right - left
    {
      var mid := (left + right) / 2;
      left', right' := if key > mid then mid + 1 else left, if key <= mid then mid else right;
      assert Pages(left, right, key) == [PageOf(mid)] + Pages(left', right', key);
      ok := Access(p, PageOf(mid), Pages(left', right', key));
    }

    /** The binary search; false when it met a missing page and no free frame. */
    method SimulateBS(p: nat, size: nat, key: int) returns (ok: bool)
      requires Valid() && p < n && size <= MAX_SIZE
      modifies Repr
      ensures Valid()
      ensures var t := Touch(old(M), p, if size == 0 then [] else Pages(0, size - 1, key));
              M == t.mem && ok == t.ok
              && total_page_accesses == old(total_page_accesses) + t.accesses
              && total_page_faults == old(total_page_faults) + t.faults
    {
      ok := true;
      if size == 0 {
        return;
      }
      ghost var goal := Onward(M, p, Pages(0, size - 1, key), true, total_page_accesses, total_page_faults);
      var left: nat, right: nat := 0, size - 1;
      while left < right && ok
        invariant Valid() && right <= size - 1
        invariant goal == Onward(M, p, Pages(left, right, key), ok, total_page_accesses, total_page_faults)
        decreases right - left, ok
      {
        ok, left, right := Probe(p, left, right, key);
      }
    }
  }

  /** What a search comes to, given what it has done so far and the pages it has still to touch. */
  function Onward(m: Mem, p: nat, pages: seq<nat>, ok: bool, accesses: nat, faults: nat): Touched
    requires p < |m.tables|
  {
    if !ok then Touched(m, false, accesses, faults)
    else
      var r := Touch(m, p, pages);
      Touched(r.mem, r.ok, accesses + r.accesses, faults + r.faults)
  }

  /** The simulation's main loop: processes, their queues, and the counters it reports. */
  class Simulator {
    const c: Config
    const machine: Machine
    const current_search: array<nat>
    const is_active: array<bool>
    const ready_queue: Ring
    const swapped_processes: Ring
    var active_processes: int
    var min_active_processes: int
    var total_swaps: nat
    ghost const Others: set<object>  // all but the machine's
    ghost const Repr: set<object>

    ghost predicate Valid()
      reads this, Repr
    {
      && Repr == Others + machine.Repr && Others !! machine.Repr && machine in machine.Repr
      && {this, ready_queue, ready_queue.data, swapped_processes, swapped_processes.data, current_search, is_active} <= Others
      && ready_queue != swapped_processes && ready_queue.data != swapped_processes.data
      && current_search != ready_queue.data && current_search != swapped_processes.data
      && machine.Valid() && ready_queue.Valid() && swapped_processes.Valid()
      && machine.n == current_search.Length == is_active.Length == |c.sizes|
      && ready_queue.data.Length == swapped_processes.data.Length == |c.sizes|
    }

    ghost function Now(): Sys
      reads this, Repr
      requires Valid()
    {
      Sys(machine.M, current_search[..], is_active[..], ready_queue.Contents, swapped_processes.Contents,
          active_processes, min_active_processes,
          machine.total_page_accesses, machine.total_page_faults, total_swaps)
    }

    /** The state before anything is loaded, on new arrays and queues. */
    constructor (c: Config, machine: Machine, ready: Ring, swapped: Ring, cur: array<nat>, act: array<bool>)
      requires InputOk(c) && machine.Valid() && ready.Valid() && swapped.Valid()
      requires machine.n == cur.Length == act.Length == ready.data.Length == swapped.data.Length == |c.sizes|
      requires {ready, ready.data, swapped, swapped.data, cur, act} !! machine.Repr
      requires ready != swapped && ready.data != swapped.data && cur != ready.data && cur != swapped.data
      ensures Valid() && Others == {this, ready, ready.data, swapped, swapped.data, cur, act}
      ensures this.c == c && this.machine == machine && ready_queue == ready && swapped_processes == swapped
      ensures current_search == cur && is_active == act && total_swaps == 0
      ensures active_processes == min_active_processes == |c.sizes|
    {
      this.c := c;
      this.machine, ready_queue, swapped_processes := machine, ready, swapped;
      current_search, is_active := cur, act;
      active_processes, min_active_processes, total_swaps := |c.sizes|, |c.sizes|, 0;
      Others := {this, ready, ready.data, swapped, swapped.data, cur, act};
      Repr := {this, ready, ready.data, swapped, swapped.data, cur, act} + machine.Repr;
    }

    /** Nothing loaded, nothing queued, nothing counted. */
    ghost predicate Blank()
      reads this, Repr
      requires Valid()
    {
      && machine.M == Fresh(|c.sizes|)
      && (forall p | 0 <= p < |c.sizes| :: current_search[p] == 0 && !is_active[p])
      && ready_queue.Contents == swapped_processes.Contents == []
      && active_processes == min_active_processes == |c.sizes|
      && total_swaps == machine.total_page_accesses == machine.total_page_faults == 0
    }

    /** Loads process p's essential pages and marks it active. */
    method Activate(p: nat) returns (ok: bool)
      requires Valid() && p < |c.sizes| && machine.M.tables[p] == map[]
      modifies machine.Repr, is_active
      ensures Valid()
      ensures ok <==> ESSENTIAL_PAGES <= |old(machine.M).free|
      ensures ok ==> Now() == old(Now()).(mem := LoadEssential(old(machine.M), p, 0), active := old(is_active[..])[p := true])
    {
      ok := machine.LoadProcessEssentialPages(p);
      if ok {
        is_active[p] := true;
      }
    }

    /** Loads process i and makes it ready, unless frames have run out. */
    method StartOne(i: nat) returns (ok: bool)
      requires Valid() && i < |c.sizes| && machine.M.tables[i] == map[] && |ready_queue.Contents| < |c.sizes|
      modifies machine.Repr, is_active, ready_queue, ready_queue.data
      ensures Valid() && (ok <==> ESSENTIAL_PAGES <= |old(machine.M).free|)
      ensures ok ==> Now() == WithOne(old(Now()), i)
    {
      ok := Activate(i);
      if ok {
        ready_queue.PushBack(i);
      }
    }

    /** The loop over all processes. */
    method StartAll() returns (ok: bool)
      requires Valid() && Now() == Started(c, 0)
      modifies machine.Repr, is_active, ready_queue, ready_queue.data
      ensures Valid() && (ok <==> RoomForAll(c))
      ensures ok ==> Now() == Started(c, |c.sizes|)
    {
      var i := 0;
      ok := true;
      while i < |c.sizes| && ok
        invariant Valid() && i <= |c.sizes|
        invariant if ok then i * ESSENTIAL_PAGES <= USER_FRAMES && Now() == Started(c, i) else !RoomForAll(c)
        decreases |c.sizes| - i, ok
      {
        StartedFacts(c, i);
        ok := StartOne(i);
        i := i + 1;
      }
    }

    /** Loads everybody's essential pages; false when frames run out, which ends the program. */
    method InitializeSimulation() returns (ok: bool)
      requires Valid() && InputOk(c) && Blank()
      modifies machine.Repr, is_active, ready_queue, ready_queue.data
      ensures Valid() && (ok <==> RoomForAll(c))
      ensures ok ==> Now() == Init(c)
    {
      BlankStarted();
      ok := StartAll();
      if ok {
        AllStarted(c);
      }
    }

    lemma BlankStarted()
      requires Valid() && Blank()
      ensures Now() == Started(c, 0)
    {
      assert current_search[..] == seq(|c.sizes|, _ => 0);
      assert is_active[..] == Below(|c.sizes|, 0);
    }

    /** Takes the current process out of memory. */
    method Retire(p: nat)
      requires Valid() && p < |c.sizes| && Partition(machine.M) && InTable(machine.M)
      modifies machine.Repr, is_active, this`active_processes
      ensures Valid()
      ensures Now() == old(Now()).(mem := SwapOut(old(machine.M), p), active := old(is_active[..])[p := false],
                                   degree := old(active_processes) - 1)
    {
      machine.SwapOutProcess(p);
      is_active[p] := false;
      active_processes := active_processes - 1;
    }

    /** Brings the oldest swapped-out process back, at the head of the ready queue. */
    method Readmit() returns (ok: bool)
      requires Valid() && swapped_processes.Contents != [] && |ready_queue.Contents| < |c.sizes|
      requires var w := swapped_processes.Contents[0]; w < |c.sizes| && machine.M.tables[w] == map[]
      modifies machine.Repr, is_active, this`active_processes, ready_queue, ready_queue.data, swapped_processes
      ensures Valid()
      ensures ok <==> |old(machine.M).free| >= ESSENTIAL_PAGES
      ensures ok ==> var w := old(swapped_processes.Contents)[0];
                Now() == old(Now()).(mem := LoadEssential(old(machine.M), w, 0), active := old(is_active[..])[w := true],
                                     degree := old(active_processes) + 1, ready := [w] + old(ready_queue.Contents),
                                     swapped := old(swapped_processes.Contents)[1..])
    {
      ghost var s := Now();
      var waiting := swapped_processes.PopFront();
      assert Now() == s.(swapped := s.swapped[1..]) && waiting == s.swapped[0];
      ok := Activate(waiting);
      if ok {
        active_processes := active_processes + 1;
        ready_queue.PushFront(waiting);
      }
    }

    /** What the outcome of p's search relies on: p is in no queue, so both have room, and
        the processes swapped out have nothing in memory. */
    ghost predicate Current(p: nat)
      reads this, Repr
      requires Valid()
    {
      && p < |c.sizes| && Partition(machine.M) && InTable(machine.M)
      && |ready_queue.Contents| < |c.sizes| && |swapped_processes.Contents| < |c.sizes|
      && (swapped_processes.Contents != [] ==>
            var w := swapped_processes.Contents[0]; w < |c.sizes| && w != p && machine.M.tables[w] == map[])
    }

    /** The current process has no more searches: its frames go back, and a swapped process may come in. */
    method FinishProcess(p: nat) returns (ok: bool)
      requires Valid() && Current(p)
      modifies machine.Repr, is_active, this`active_processes, ready_queue, ready_queue.data, swapped_processes
      ensures Valid()
      ensures if ok then Some(Now()) == old(Finish(c, Now(), p)) else old(Finish(c, Now(), p)) == None
    {
      ghost var s := Now();
      SwapOutTables(s.mem, p);
      Retire(p);
      assert Now() == s.(mem := SwapOut(s.mem, p), active := s.active[p := false], degree := s.degree - 1);
      ok := true;
      if swapped_processes.count > 0 {
        ok := Readmit();
      }
    }

    method ExpelProcess(p: nat)
      requires Valid() && Current(p)
      modifies Repr
      ensures Valid() && Now() == old(Expel(Now(), p))
    {
      Retire(p);
      swapped_processes.PushBack(p);
      total_swaps := total_swaps + 1;
      if active_processes < min_active_processes {
        min_active_processes := active_processes;
      }
    }

    /** Takes the next process and makes its search. */
    method Search() returns (p: nat, found: bool)
      requires Valid() && Shape(c, Now()) && ready_queue.Contents != []
      modifies machine.Repr, ready_queue
      ensures Valid() && Now() == old(Searched(c, Now())) && p == old(ready_queue.Contents)[0]
      ensures found == old(var s := Now(); Touch(s.mem, s.ready[0], Trace(c, s.ready[0], s.cur[s.ready[0]])).ok)
    {
      ghost var s := Now();
      p := ready_queue.PopFront();
      assert p == s.ready[0] && Now() == s.(ready := s.ready[1..]);
      found := machine.SimulateBS(p, c.sizes[p], c.keys[p][current_search[p]]);
    }

    /** What follows a search that got through. */
    method Advance(p: nat) returns (ok: bool)
      requires Valid() && Current(p)
      modifies Repr
      ensures Valid()
      ensures var s := old(Now());
              var s2 := s.(cur := s.cur[p := s.cur[p] + 1]);
              if s2.cur[p] >= c.searches then (if ok then Some(Now()) == Finish(c, s2, p) else Finish(c, s2, p) == None)
              else ok && Now() == s2.(ready := s.ready + [p])
    {
      current_search[p] := current_search[p] + 1;
      ok := true;
      if current_search[p] >= c.searches {
        ok := FinishProcess(p);
      } else {
        ready_queue.PushBack(p);
      }
    }

    /** One turn of the main loop. */
    method Turn() returns (ok: bool)
      requires Valid() && Inv(c, Now()) && ready_queue.Contents != []
      modifies Repr
      ensures Valid() && ok && Some(Now()) == old(Step(c, Now()))
    {
      StepInv(c, Now());
      Prepare(c, Now());
      ok := MakeTurn();
    }

    method MakeTurn() returns (ok: bool)
      requires Valid() && Prepared(c, Now())
      modifies Repr
      ensures Valid()
      ensures if ok then Some(Now()) == old(Step(c, Now())) else old(Step(c, Now())) == None
    {
      var p, found := Search();
      if found {
        ok := Advance(p);
      } else {
        ok := true;
        ExpelProcess(p);
      }
    }

    /** The whole simulation: it stops, with everything done. */
    method Run()
      requires Valid() && Inv(c, Now())
      modifies Repr
      ensures Valid() && Now() == old(Final(c, Now()))
      ensures var t := Now();
              && t.ready == [] && t.swapped == []
              && (forall p: nat | p < |c.sizes| :: current_search[p] == c.searches && !is_active[p])
              && machine.num_free_frames == USER_FRAMES
              && Min(|c.sizes|, 6) <= min_active_processes
    {
      EverythingCompletes(c, Now());
      ghost var goal := Final(c, Now());
      while ready_queue.count > 0
        invariant Valid() && Inv(c, Now()) && Final(c, Now()) == goal
        decreases (CursBounded(c, Now()); ToDo(c, Now())), |ready_queue.Contents|
      {
        StepInv(c, Now());
        StepProgress(c, Now());
        var ok := Turn();
      }
    }
  }

  /** What a turn relies on, with the step taken apart at the outcome of the search. */
  ghost predicate Prepared(c: Config, s: Sys) {
    && Shape(c, s) && s.ready != []
    && (var t := Searched(c, s); var p := s.ready[0]; var u := t.(cur := t.cur[p := t.cur[p] + 1]);
        && p < |c.sizes| && Partition(t.mem) && InTable(t.mem)
        && |t.ready| < |c.sizes| && |t.swapped| < |c.sizes|
        && (t.swapped != [] ==> t.swapped[0] < |c.sizes| && t.swapped[0] != p && t.mem.tables[t.swapped[0]] == map[])
        && Step(c, s) == if !Touch(s.mem, p, Trace(c, p, s.cur[p])).ok then Some(Expel(t, p))
                         else if u.cur[p] >= c.searches then Finish(c, u, p)
                         else Some(u.(ready := u.ready + [p])))
  }

  lemma Prepare(c: Config, s: Sys)
    requires Inv(c, s) && s.ready != []
    ensures Prepared(c, s)
  {
    SearchedCurrent(c, s);
    StepBySearch(c, s);
  }

  /** What Current asks holds once the next process has made its search. */
  lemma SearchedCurrent(c: Config, s: Sys)
    requires Inv(c, s) && s.ready != []
    ensures var t := Searched(c, s); var p := s.ready[0];
            && p < |c.sizes| && Partition(t.mem) && InTable(t.mem)
            && |t.ready| < |c.sizes| && |t.swapped| < |c.sizes|
            && (t.swapped != [] ==> t.swapped[0] < |c.sizes| && t.swapped[0] != p && t.mem.tables[t.swapped[0]] == map[])
  {
    SearchedMid(c, s);
    RoomInQueues(c, Searched(c, s), s.ready[0]);
    SwappedHaveNothing(c, Searched(c, s), s.ready[0]);
  }

  /** The arrays and queues of a simulation of n processes. */
  method NewQueues(n: nat) returns (cur: array<nat>, act: array<bool>, ready: Ring, swapped: Ring)
    ensures cur.Length == act.Length == ready.data.Length == swapped.data.Length == n
    ensures (forall p | 0 <= p < n :: cur[p] == 0 && !act[p]) && ready.Contents == swapped.Contents == []
    ensures ready.Valid() && swapped.Valid()
    ensures ready != swapped && ready.data != swapped.data && cur != ready.data && cur != swapped.data
    ensures fresh({ready, ready.data, swapped, swapped.data, cur, act})
  {
    cur := new nat[n](_ => 0);
    act := new bool[n](_ => false);
    ready := new Ring(n);
    swapped := new Ring(n);
  }

  /** Allocates everything for a simulation of c. */
  method NewSimulator(c: Config) returns (s: Simulator)
    requires InputOk(c)
    ensures fresh(s) && s.Valid() && fresh(s.Repr) && s.c == c && s.Blank()
  {
    var machine := new Machine(|c.sizes|);
    var cur, act, ready, swapped := NewQueues(|c.sizes|);
    s := new Simulator(c, machine, ready, swapped, cur, act);
  }

  /** The program: false when there is no room to start, and otherwise everything gets done. */
  method Simulate(c: Config) returns (ok: bool, s: Simulator)
    requires InputOk(c)
    ensures s.Valid() && s.c == c && (ok <==> RoomForAll(c))
    ensures ok ==> Inv(c, Init(c)) && s.Now() == Final(c, Init(c))
  {
    s := NewSimulator(c);
    ok := s.InitializeSimulation();
    if ok {
      InitInv(c);
      s.Run();
    }
  }

  lemma SwapOutTables(m: Mem, p: nat)
    requires Partition(m) && InTable(m) && p < |m.tables|
    ensures SwapOut(m, p).tables == m.tables[p := map[]]
  {
    SwapOutFacts(m, p);
  }

  lemma SwappedHaveNothing(c: Config, s: Sys, p: nat)
    requires Mid(c, s, p)
    ensures forall k | 0 <= k < |s.swapped| :: s.swapped[k] != p && s.swapped[k] < |c.sizes| && s.mem.tables[s.swapped[k]] == map[]
  {
    forall k | 0 <= k < |s.swapped|
      ensures s.swapped[k] != p && s.mem.tables[s.swapped[k]] == map[]
    {
      assert Ranked(c, s, s.swapped[k]);
    }
  }

  /** Which of n processes come before the i-th. */
  function Below(n: nat, i: nat): seq<bool> {
    seq(n, (q: nat) => q < i)
  }

  function Upto(i: nat): seq<nat> {
    seq(i, (k: nat) => k)
  }

  /** Memory once the first i of n processes have their essential pages. */
  function Prefix(n: nat, i: nat): (m: Mem)
    requires i <= n && i * ESSENTIAL_PAGES <= USER_FRAMES
    ensures |m.tables| == n && |m.free| == USER_FRAMES - i * ESSENTIAL_PAGES
    ensures forall q | i <= q < n :: m.tables[q] == map[]
    decreases i
  {
    if i == 0 then Fresh(n)
    else
      LoadEssentialTables(Prefix(n, i - 1), i - 1, 0);
      LoadEssentialLength(Prefix(n, i - 1), i - 1, 0);
      LoadEssential(Prefix(n, i - 1), i - 1, 0)
  }

  /** The state once the first i processes are loaded. */
  function Started(c: Config, i: nat): Sys
    requires i <= |c.sizes| && i * ESSENTIAL_PAGES <= USER_FRAMES
  {
    var n := |c.sizes|;
    Sys(Prefix(n, i), seq(n, _ => 0), Below(n, i), Upto(i), [], n, n, 0, 0, 0)
  }

  /** The state with one more process loaded. */
  function WithOne(s: Sys, i: nat): Sys
    requires i < |s.mem.tables| && i < |s.active| && ESSENTIAL_PAGES <= |s.mem.free|
  {
    s.(mem := LoadEssential(s.mem, i, 0), active := s.active[i := true], ready := s.ready + [i])
  }

  lemma StartedFacts(c: Config, i: nat)
    requires i < |c.sizes| && i * ESSENTIAL_PAGES <= USER_FRAMES
    ensures var s := Started(c, i);
      && s.mem.tables[i] == map[] && |s.ready| < |c.sizes| && |s.active| == |c.sizes|
      && (|s.mem.free| < ESSENTIAL_PAGES ==> !RoomForAll(c))
      && (ESSENTIAL_PAGES <= |s.mem.free| ==> (i + 1) * ESSENTIAL_PAGES <= USER_FRAMES && WithOne(s, i) == Started(c, i + 1))
  {
    var n := |c.sizes|;
    assert Below(n, i)[i := true] == Below(n, i + 1);
    assert Upto(i) + [i] == Upto(i + 1);
  }

  lemma {:induction false} PrefixIsAll(n: nat, i: nat)
    requires i <= n && n * ESSENTIAL_PAGES <= USER_FRAMES
    ensures i * ESSENTIAL_PAGES <= USER_FRAMES
    ensures LoadAll(Prefix(n, i), i) == Prefix(n, n)
    decreases n - i
  {
    if i < n {
      PrefixIsAll(n, i + 1);
    }
  }

  lemma AllStarted(c: Config)
    requires InputOk(c) && RoomForAll(c)
    ensures Started(c, |c.sizes|) == Init(c)
  {
    PrefixIsAll(|c.sizes|, 0);
  }
}
