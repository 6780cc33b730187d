/** The whole simulation as a chain of turns: a ready process searches, and is requeued, swapped out
    or finished; a finished process lets the longest-swapped one back in. */
module PagingRuns {
  import opened Pigeonhole
  import opened Options
  import opened SearchTrace
  import opened PagingSpec

  datatype Config = Config(sizes: seq<nat>, keys: seq<seq<int>>, searches: nat)

  /** What the input promises: at least one search each, and arrays that fit the page table. */
  predicate InputOk(c: Config) {
    && |c.sizes| == |c.keys| && 1 <= c.searches
    && (forall p | 0 <= p < |c.sizes| :: c.sizes[p] <= MAX_SIZE && |c.keys[p]| == c.searches)
  }

  /** With fewer frames the simulation stops at once, with an error. */
  predicate RoomForAll(c: Config) {
    |c.sizes| * ESSENTIAL_PAGES <= USER_FRAMES
  }

  predicate ConfigOk(c: Config) {
    InputOk(c) && RoomForAll(c)
  }

  datatype Sys = Sys(
    mem: Mem,
    cur: seq<nat>,       // searches done
    active: seq<bool>,
    ready: seq<nat>,
    swapped: seq<nat>,
    degree: int,         // active_processes
    least: int,          // min_active_processes
    accesses: nat, faults: nat, swaps: nat)

  predicate Shape(c: Config, s: Sys) {
    && ConfigOk(c)
    && |s.mem.tables| == |s.cur| == |s.active| == |c.sizes|
    && (forall k | 0 <= k < |s.ready| :: s.ready[k] < |c.sizes| && s.cur[s.ready[k]] < c.searches)
    && (forall k | 0 <= k < |s.swapped| :: s.swapped[k] < |c.sizes| && s.cur[s.swapped[k]] < c.searches)
    && (forall a, b | 0 <= a < b < |s.ready| :: s.ready[a] != s.ready[b])
    && (forall a, b | 0 <= a < b < |s.swapped| :: s.swapped[a] != s.swapped[b])
    && (forall k | 0 <= k < |s.swapped| :: s.swapped[k] !in s.ready)
  }

  /** The pages that search number k of process p touches. */
  function Trace(c: Config, p: nat, k: nat): seq<nat>
    requires p < |c.sizes| == |c.keys| && k < |c.keys[p]|
  {
    if c.sizes[p] == 0 then [] else Pages(0, c.sizes[p] - 1, c.keys[p][k])
  }

  /** The current process has done its last search: it leaves, and the oldest swapped one comes back
      at the head of the ready queue.  None when there are no frames for it. */
  function Finish(c: Config, s: Sys, p: nat): (r: Option<Sys>)
    requires p < |s.mem.tables| == |s.active| && (s.swapped != [] ==> s.swapped[0] < |s.mem.tables|)
  {
    var mem := SwapOut(s.mem, p);
    var gone := s.(mem := mem, active := s.active[p := false], degree := s.degree - 1);
    if s.swapped == [] then Some(gone)
    else if |mem.free| < ESSENTIAL_PAGES then None
    else
      var w := s.swapped[0];
      Some(gone.(mem := LoadEssential(mem, w, 0), active := gone.active[w := true], degree := gone.degree + 1,
                 ready := [w] + s.ready, swapped := s.swapped[1..]))
  }

  function Expel(s: Sys, p: nat): Sys
    requires p < |s.mem.tables| == |s.active|
  {
    s.(mem := SwapOut(s.mem, p), active := s.active[p := false], swapped := s.swapped + [p],
       swaps := s.swaps + 1, degree := s.degree - 1,
       least := if s.degree - 1 < s.least then s.degree - 1 else s.least)
  }

  /** The process at the head of the ready queue makes one search. */
  function Step(c: Config, s: Sys): Option<Sys>
    requires Shape(c, s) && s.ready != []
  {
    var p := s.ready[0];
    var t := Touch(s.mem, p, Trace(c, p, s.cur[p]));
    var s1 := s.(mem := t.mem, ready := s.ready[1..], accesses := s.accesses + t.accesses, faults := s.faults + t.faults);
    if !t.ok then Some(Expel(s1, p))
    else
      var s2 := s1.(cur := s1.cur[p := s1.cur[p] + 1]);
      if s2.cur[p] >= c.searches then Finish(c, s2, p) else Some(s2.(ready := s2.ready + [p]))
  }

  // ----- the invariant

  predicate Waits(s: Sys, p: nat) {
    p in s.ready || p in s.swapped
  }

  /** Each process is ready, swapped out or finished, with the memory that goes with it. */
  predicate Ranked(c: Config, s: Sys, p: nat)
    requires Shape(c, s) && p < |c.sizes|
  {
    && (s.active[p] <==> p in s.ready)
    && (if p in s.ready then Essential(s.mem, p) else s.mem.tables[p] == map[])
    && (Waits(s, p) || s.cur[p] == c.searches)
  }

  function Min(a: int, b: int): int {
    if a < b then a else b
  }

  ghost predicate Inv(c: Config, s: Sys) {
    && Shape(c, s)
    && Partition(s.mem) && InTable(s.mem)
    && (forall p: nat | p < |c.sizes| :: Ranked(c, s, p))
    && s.degree == |s.ready|
    && (s.swapped != [] ==> s.degree >= 6)
    && Min(|c.sizes|, 6) <= s.least
  }

  lemma TraceInTable(c: Config, p: nat, k: nat)
    requires ConfigOk(c) && p < |c.sizes| && k < c.searches
    ensures forall i | 0 <= i < |Trace(c, p, k)| :: Trace(c, p, k)[i] < PAGE_TABLE_SIZE
  {
    if c.sizes[p] > 0 {
      PagesInTable(0, c.sizes[p] - 1, c.keys[p][k]);
    }
  }

  /** A process is only swapped out while at least seven are active. */
  lemma SwapOutNeedsSeven(c: Config, s: Sys)
    requires Inv(c, s) && s.ready != []
    requires !Touch(s.mem, s.ready[0], Trace(c, s.ready[0], s.cur[s.ready[0]])).ok
    ensures |s.ready| >= 7
  {
    var p := s.ready[0];
    var pages := Trace(c, p, s.cur[p]);
    TraceInTable(c, p, s.cur[p]);
    TouchFacts(s.mem, p, pages);
    var m := Touch(s.mem, p, pages).mem;
    var k :| 0 <= k < |pages| && pages[k] !in m.tables[p];
    forall q | 0 <= q < |m.tables| && q !in s.ready
      ensures m.tables[q] == map[]
    {
      assert Ranked(c, s, q) && q != p;
    }
    FullMemoryHasManyHolders(m, s.ready, pages[k]);
  }

  /** Between taking p off the ready queue and putting it somewhere. */
  ghost predicate Mid(c: Config, s: Sys, p: nat) {
    && Shape(c, s) && p < |c.sizes|
    && p !in s.ready && p !in s.swapped && s.active[p] && s.cur[p] <= c.searches
    && Partition(s.mem) && InTable(s.mem) && Essential(s.mem, p)
    && (forall q: nat | q < |c.sizes| && q != p :: Ranked(c, s, q))
    && s.degree == |s.ready| + 1
    && (s.swapped != [] ==> s.degree >= 6)
    && Min(|c.sizes|, 6) <= s.least
  }

  /** While p is in neither queue, both have a free cell. */
  lemma RoomInQueues(c: Config, s: Sys, p: nat)
    requires Shape(c, s) && p < |c.sizes| && p !in s.ready && p !in s.swapped
    ensures |s.ready| < |c.sizes| && |s.swapped| < |c.sizes|
  {
    Crowd(s.ready + [p], |c.sizes|);
    Crowd(s.swapped + [p], |c.sizes|);
  }

  /** The current state after the search, before its outcome is acted on. */
  function Searched(c: Config, s: Sys): Sys
    requires Shape(c, s) && s.ready != []
  {
    var p := s.ready[0];
    var t := Touch(s.mem, p, Trace(c, p, s.cur[p]));
    s.(mem := t.mem, ready := s.ready[1..], accesses := s.accesses + t.accesses, faults := s.faults + t.faults)
  }

  lemma SearchedMid(c: Config, s: Sys)
    requires Inv(c, s) && s.ready != []
    ensures Mid(c, Searched(c, s), s.ready[0])
  {
    var p := s.ready[0];
    var t := Searched(c, s);
    TraceInTable(c, p, s.cur[p]);
    TouchFacts(s.mem, p, Trace(c, p, s.cur[p]));
    assert Ranked(c, s, p);
    assert p !in t.ready;
    forall q: nat | q < |c.sizes| && q != p
      ensures Ranked(c, t, q)
    {
      assert Ranked(c, s, q);
      assert q in s.ready <==> q in t.ready;
    }
  }

  lemma RequeueInv(c: Config, s: Sys, p: nat)
    requires Mid(c, s, p) && s.cur[p] < c.searches
    ensures Inv(c, s.(ready := s.ready + [p]))
  {
    var t := s.(ready := s.ready + [p]);
    assert forall k | 0 <= k < |s.swapped| :: s.swapped[k] != p;
    forall q: nat | q < |c.sizes|
      ensures Ranked(c, t, q)
    {
      assert q != p ==> Ranked(c, s, q);
    }
  }

  lemma ExpelInv(c: Config, s: Sys, p: nat)
    requires Mid(c, s, p) && s.cur[p] < c.searches && s.degree >= 7
    ensures Inv(c, Expel(s, p))
  {
    var t := Expel(s, p);
    SwapOutFacts(s.mem, p);
    assert forall q | q in t.swapped :: q in s.swapped || q == p;
    forall q: nat | q < |c.sizes|
      ensures Ranked(c, t, q)
    {
      assert q != p ==> Ranked(c, s, q);
      assert q in t.swapped <==> q in s.swapped || q == p;
    }
  }

  lemma TenPages(m: map<nat, nat>)
    requires forall g | 0 <= g < ESSENTIAL_PAGES :: g in m
    ensures |m| >= ESSENTIAL_PAGES
  {
    var rest := m.Keys - {0, 1, 2, 3, 4, 5, 6, 7, 8, 9};
    assert m.Keys == rest + {0, 1, 2, 3, 4, 5, 6, 7, 8, 9};
  }

  /** A finished process leaves enough frames for the one that comes back. */
  lemma FinishInv(c: Config, s: Sys, p: nat)
    requires Mid(c, s, p) && s.cur[p] == c.searches
    ensures Finish(c, s, p).Some? && Inv(c, Finish(c, s, p).value)
  {
    var mem := SwapOut(s.mem, p);
    SwapOutFacts(s.mem, p);
    TenPages(s.mem.tables[p]);
    if s.swapped != [] {
      var w := s.swapped[0];
      assert Ranked(c, s, w);
      LoadEssentialFacts(mem, w);
    }
    FinishRanks(c, s, p);
  }

  lemma FinishRanks(c: Config, s: Sys, p: nat)
    requires Mid(c, s, p) && s.cur[p] == c.searches && Finish(c, s, p).Some?
    requires var mem := SwapOut(s.mem, p);
             mem.tables == s.mem.tables[p := map[]]
             && (s.swapped != [] ==> var r := LoadEssential(mem, s.swapped[0], 0);
                  Essential(r, s.swapped[0]) && r.tables == mem.tables[s.swapped[0] := r.tables[s.swapped[0]]])
    ensures var t := Finish(c, s, p).value;
            Shape(c, t) && forall q: nat | q < |c.sizes| :: Ranked(c, t, q)
  {
    var t := Finish(c, s, p).value;
    if s.swapped != [] {
      assert t.swapped == s.swapped[1..] && t.ready == [s.swapped[0]] + s.ready;
      assert forall k | 0 <= k < |t.swapped| :: t.swapped[k] == s.swapped[k + 1];
    }
    forall q: nat | q < |c.sizes|
      ensures Ranked(c, t, q)
    {
      assert q != p ==> Ranked(c, s, q);
      if s.swapped != [] {
        assert q in s.swapped <==> q == s.swapped[0] || q in t.swapped;
      }
    }
  }

  /** The step, taken apart at the outcome of the search. */
  lemma StepBySearch(c: Config, s: Sys)
    requires Shape(c, s) && s.ready != []
    ensures var p := s.ready[0]; var s1 := Searched(c, s); var s2 := s1.(cur := s1.cur[p := s1.cur[p] + 1]);
            Step(c, s) == if !Touch(s.mem, p, Trace(c, p, s.cur[p])).ok then Some(Expel(s1, p))
                          else if s2.cur[p] >= c.searches then Finish(c, s2, p)
                          else Some(s2.(ready := s2.ready + [p]))
  {
  }

  lemma GoOnInv(c: Config, s: Sys, p: nat)
    requires Mid(c, s, p) && s.cur[p] < c.searches
    ensures var t := s.(cur := s.cur[p := s.cur[p] + 1]);
            if t.cur[p] >= c.searches then Finish(c, t, p).Some? && Inv(c, Finish(c, t, p).value)
            else Inv(c, t.(ready := t.ready + [p]))
  {
    var t := s.(cur := s.cur[p := s.cur[p] + 1]);
    CountedMid(c, s, p);
    if t.cur[p] >= c.searches {
      FinishInv(c, t, p);
    } else {
      RequeueInv(c, t, p);
    }
  }

  lemma FailedInv(c: Config, s: Sys)
    requires Inv(c, s) && s.ready != [] && !Touch(s.mem, s.ready[0], Trace(c, s.ready[0], s.cur[s.ready[0]])).ok
    ensures Inv(c, Expel(Searched(c, s), s.ready[0]))
  {
    SearchedMid(c, s);
    SwapOutNeedsSeven(c, s);
    ExpelInv(c, Searched(c, s), s.ready[0]);
  }

  /** A turn always succeeds and keeps the invariant. */
  lemma StepInv(c: Config, s: Sys)
    requires Inv(c, s) && s.ready != []
    ensures Step(c, s).Some? && Inv(c, Step(c, s).value)
  {
    StepBySearch(c, s);
    if !Touch(s.mem, s.ready[0], Trace(c, s.ready[0], s.cur[s.ready[0]])).ok {
      FailedInv(c, s);
    } else {
      SearchedMid(c, s);
      GoOnInv(c, Searched(c, s), s.ready[0]);
    }
  }

  lemma CountedMid(c: Config, s: Sys, p: nat)
    requires Mid(c, s, p) && s.cur[p] < c.searches
    ensures Mid(c, s.(cur := s.cur[p := s.cur[p] + 1]), p)
  {
    var t := s.(cur := s.cur[p := s.cur[p] + 1]);
    forall q: nat | q < |c.sizes| && q != p
      ensures Ranked(c, t, q)
    {
      assert Ranked(c, s, q);
    }
  }

  // ----- the run

  /** Searches still to be done. */
  function Remaining(cur: seq<nat>, m: nat): nat
    requires forall k | 0 <= k < |cur| :: cur[k] <= m
  {
    if cur == [] then 0 else m - cur[0] + Remaining(cur[1..], m)
  }

  lemma {:induction false} RemainingDrops(cur: seq<nat>, m: nat, p: nat)
    requires forall k | 0 <= k < |cur| :: cur[k] <= m
    requires p < |cur| && cur[p] < m
    ensures Remaining(cur[p := cur[p] + 1], m) == Remaining(cur, m) - 1
  {
    if p == 0 {
      assert cur[p := cur[p] + 1][1..] == cur[1..];
    } else {
      assert cur[p := cur[p] + 1][1..] == cur[1..][p - 1 := cur[1..][p - 1] + 1];
      RemainingDrops(cur[1..], m, p - 1);
    }
  }

  lemma CursBounded(c: Config, s: Sys)
    requires Inv(c, s)
    ensures forall p | 0 <= p < |s.cur| :: s.cur[p] <= c.searches
  {
    forall p: nat | p < |s.cur|
      ensures s.cur[p] <= c.searches
    {
      assert Ranked(c, s, p);
    }
  }

  function ToDo(c: Config, s: Sys): nat
    requires forall k | 0 <= k < |s.cur| :: s.cur[k] <= c.searches
  {
    Remaining(s.cur, c.searches)
  }

  lemma StepCounts(c: Config, s: Sys)
    requires Shape(c, s) && s.ready != [] && Step(c, s).Some?
    ensures var t := Step(c, s).value; var p := s.ready[0];
            if Touch(s.mem, p, Trace(c, p, s.cur[p])).ok then t.cur == s.cur[p := s.cur[p] + 1]
            else t.cur == s.cur && |t.ready| < |s.ready|
  {
  }

  lemma CountsFall(c: Config, s: Sys)
    requires Shape(c, s) && s.ready != [] && Step(c, s).Some?
    requires forall k | 0 <= k < |s.cur| :: s.cur[k] <= c.searches
    ensures var t := Step(c, s).value;
            && (forall k | 0 <= k < |t.cur| :: t.cur[k] <= c.searches)
            && (ToDo(c, t) < ToDo(c, s) || (ToDo(c, t) == ToDo(c, s) && |t.ready| < |s.ready|))
  {
    StepCounts(c, s);
    RemainingDrops(s.cur, c.searches, s.ready[0]);
  }

  /** A turn either gets a search done or swaps a ready process out. */
  lemma StepProgress(c: Config, s: Sys)
    requires Inv(c, s) && s.ready != []
    ensures Step(c, s).Some? && Inv(c, Step(c, s).value)
    ensures forall k | 0 <= k < |s.cur| :: s.cur[k] <= c.searches
    ensures forall k | 0 <= k < |Step(c, s).value.cur| :: Step(c, s).value.cur[k] <= c.searches
    ensures var t := Step(c, s).value;
            ToDo(c, t) < ToDo(c, s) || (ToDo(c, t) == ToDo(c, s) && |t.ready| < |s.ready|)
  {
    StepInv(c, s);
    CursBounded(c, s);
    CountsFall(c, s);
  }

  /** How the simulation ends. */
  ghost function Final(c: Config, s: Sys): Sys
    requires Inv(c, s)
    decreases (CursBounded(c, s); ToDo(c, s)), |s.ready|
  {
    if s.ready == [] then s
    else
      StepProgress(c, s);
      Final(c, Step(c, s).value)
  }

  /** Everybody active and ready, with the essential pages loaded in order. */
  function Init(c: Config): Sys
    requires ConfigOk(c)
  {
    var n := |c.sizes|;
    Sys(LoadAll(Fresh(n), 0), seq(n, _ => 0), seq(n, _ => true), seq(n, (k: nat) => k), [], n, n, 0, 0, 0)
  }

  function LoadAll(m: Mem, p: nat): (r: Mem)
    requires p <= |m.tables| && (|m.tables| - p) * ESSENTIAL_PAGES <= |m.free|
    ensures |r.tables| == |m.tables|
    decreases |m.tables| - p
  {
    if p == |m.tables| then m
    else
      LoadEssentialLength(m, p, 0);
      LoadAll(LoadEssential(m, p, 0), p + 1)
  }

  lemma {:induction false} LoadEssentialLength(m: Mem, p: nat, page: nat)
    requires p < |m.tables| && page <= ESSENTIAL_PAGES <= page + |m.free|
    ensures |LoadEssential(m, p, page).free| == |m.free| - (ESSENTIAL_PAGES - page)
    decreases ESSENTIAL_PAGES - page
  {
    if page < ESSENTIAL_PAGES {
      LoadEssentialLength(Load(m, p, page), p, page + 1);
    }
  }

  /** The first p processes have their essential pages, the others nothing. */
  predicate LoadedUpTo(m: Mem, p: nat) {
    && p <= |m.tables|
    && (forall q | 0 <= q < p :: Essential(m, q))
    && (forall q | p <= q < |m.tables| :: m.tables[q] == map[])
  }

  lemma OneMoreLoaded(m: Mem, p: nat)
    requires LoadedUpTo(m, p) && p < |m.tables| && ESSENTIAL_PAGES <= |m.free|
    ensures LoadedUpTo(LoadEssential(m, p, 0), p + 1)
  {
    LoadEssentialTables(m, p, 0);
    var next := LoadEssential(m, p, 0);
    assert forall q | 0 <= q < p :: Essential(m, q) && next.tables[q] == m.tables[q];
  }

  lemma {:induction false} LoadAllFacts(m: Mem, p: nat)
    requires LoadedUpTo(m, p) && (|m.tables| - p) * ESSENTIAL_PAGES <= |m.free|
    requires Partition(m) && InTable(m)
    ensures var r := LoadAll(m, p); Partition(r) && InTable(r) && LoadedUpTo(r, |r.tables|)
    decreases |m.tables| - p
  {
    if p < |m.tables| {
      LoadEssentialLength(m, p, 0);
      LoadEssentialFacts(m, p);
      OneMoreLoaded(m, p);
      LoadAllFacts(LoadEssential(m, p, 0), p + 1);
    }
  }

  lemma InitInv(c: Config)
    requires ConfigOk(c)
    ensures Inv(c, Init(c))
  {
    var s := Init(c);
    var m := Fresh(|c.sizes|);
    FreshPartition(|c.sizes|);
    LoadAllFacts(m, 0);
    InitRanked(c, LoadAll(m, 0), s);
  }

  lemma InitRanked(c: Config, m: Mem, s: Sys)
    requires ConfigOk(c) && |m.tables| == |c.sizes| && LoadedUpTo(m, |m.tables|)
    requires var n := |c.sizes|;
             s == Sys(m, seq(n, _ => 0), seq(n, _ => true), seq(n, (k: nat) => k), [], n, n, 0, 0, 0)
    ensures Shape(c, s) && forall p: nat | p < |c.sizes| :: Ranked(c, s, p)
  {
    forall p: nat | p < |c.sizes|
      ensures Ranked(c, s, p)
    {
      assert s.ready[p] == p;
    }
  }

  /** The simulation ends with every search of every process done, nobody swapped out, all frames back,
      and six, or all if there are fewer, as the least degree of multiprogramming reported at a swap-out, or
      more. */
  lemma {:induction false} EverythingCompletes(c: Config, s: Sys)
    requires Inv(c, s)
    ensures var t := Final(c, s);
            && Inv(c, t) && t.ready == [] && t.swapped == []
            && (forall p: nat | p < |c.sizes| :: t.cur[p] == c.searches && !t.active[p])
            && |t.mem.free| == USER_FRAMES
            && Min(|c.sizes|, 6) <= t.least
    decreases (CursBounded(c, s); ToDo(c, s)), |s.ready|
  {
    if s.ready == [] {
      forall p: nat | p < |c.sizes|
        ensures s.cur[p] == c.searches && !s.active[p] && s.mem.tables[p] == map[]
      {
        assert Ranked(c, s, p);
      }
      EmptyTablesFillThePool(s.mem);
    } else {
      StepProgress(c, s);
      EverythingCompletes(c, Step(c, s).value);
    }
  }
}
