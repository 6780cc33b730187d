/** What every run of the page-replacement simulator has, from the start. */
module LruTheorems {
  import opened Options
  import opened SearchTrace
  import opened History
  import opened LruSpec
  import opened LruRuns
  import opened LruSystem
  import PS = PagingSpec
  import PR = PagingRuns

  // ----- the start

  function FreshKernel(n: nat): Kernel {
    Kernel(seq(NFRAMES, f requires 0 <= f < NFRAMES => FF(NFRAMES - 1 - f, -1, -1)), seq(n, _ => map[]),
           seq(n, _ => Stats(0, 0, 0, 0, 0, 0, 0)), seq(NFRAMES, _ => Blank))
  }

  /** Gives p its essential pages from `page` on. */
  function LoadTen(k: Kernel, p: nat, page: nat): (r: Kernel)
    requires Shape(k, |k.tables|) && p < |k.tables| && page <= ESSENTIAL_PAGES <= page + |k.free|
    ensures Shape(r, |k.tables|) && |r.tables| == |k.tables|
    ensures |r.free| == |k.free| - (ESSENTIAL_PAGES - page)
    decreases ESSENTIAL_PAGES - page, p
  {
    if page == ESSENTIAL_PAGES then k else LoadTen(LoadFree(k, p, page), p, page + 1)
  }

  function LoadAll(k: Kernel, p: nat): (r: Kernel)
    requires Shape(k, |k.tables|) && p <= |k.tables| && (|k.tables| - p) * ESSENTIAL_PAGES <= |k.free|
    ensures Shape(r, |k.tables|) && |r.tables| == |k.tables|
    ensures |r.free| == |k.free| - (|k.tables| - p) * ESSENTIAL_PAGES
    decreases |k.tables| - p
  {
    if p == |k.tables| then k else LoadAll(LoadTen(k, p, 0), p + 1)
  }

  function Init(c: Config): Sys
    requires ConfigOk(c)
  {
    var n := |c.sizes|;
    Sys(LoadAll(FreshKernel(n), 0), seq(n, _ => 0), seq(n, (i: nat) => i))
  }

  lemma FreshSound(n: nat)
    ensures Sound(FreshKernel(n), n)
  {
    var k := FreshKernel(n);
    var loc := seq(NFRAMES, f requires 0 <= f < NFRAMES => PS.InPool(NFRAMES - 1 - f));
    assert Frames(k).tables == seq(n, _ => map[]);
    assert PS.Places(Frames(k), loc);
  }

  lemma LoadFreeSound(k: Kernel, n: nat, p: nat, page: nat)
    requires Sound(k, n) && p < n && page < ESSENTIAL_PAGES && k.free != [] && page !in k.tables[p]
    ensures Sound(LoadFree(k, p, page), n)
  {
    FramesLoadFree(k, p, page);
    PS.LoadPartition(Frames(k), p, page);
    LoadFreeTruthful(k, n, p, page);
  }

  predicate OnlyEssential(k: Kernel, p: nat)
    requires p < |k.tables|
  {
    forall g | g in k.tables[p] :: g < ESSENTIAL_PAGES
  }

  lemma {:induction false} LoadTenFacts(k: Kernel, n: nat, p: nat, page: nat)
    requires Sound(k, n) && p < n && page <= ESSENTIAL_PAGES <= page + |k.free|
    requires forall g :: g in k.tables[p] <==> 0 <= g < page
    ensures var r := LoadTen(k, p, page);
            && Sound(r, n) && HasEssential(r, p) && OnlyEssential(r, p)
            && (forall o | 0 <= o < n && o != p :: r.tables[o] == k.tables[o])
    decreases ESSENTIAL_PAGES - page
  {
    if page < ESSENTIAL_PAGES {
      LoadFreeSound(k, n, p, page);
      LoadTenFacts(LoadFree(k, p, page), n, p, page + 1);
    }
  }

  /** The first p processes have their essential pages, the others nothing. */
  predicate LoadedUpTo(k: Kernel, p: nat) {
    && p <= |k.tables|
    && (forall o | 0 <= o < p :: HasEssential(k, o) && OnlyEssential(k, o))
    && (forall o | p <= o < |k.tables| :: k.tables[o] == map[])
  }

  lemma OneMoreLoaded(k: Kernel, n: nat, p: nat)
    requires Sound(k, n) && p < n && ESSENTIAL_PAGES <= |k.free| && LoadedUpTo(k, p)
    ensures Sound(LoadTen(k, p, 0), n) && LoadedUpTo(LoadTen(k, p, 0), p + 1)
  {
    LoadTenFacts(k, n, p, 0);
    var next := LoadTen(k, p, 0);
    assert forall o | 0 <= o < p :: HasEssential(k, o) && OnlyEssential(k, o) && next.tables[o] == k.tables[o];
  }

  lemma {:induction false} LoadAllFacts(k: Kernel, n: nat, p: nat)
    requires Sound(k, n) && (n - p) * ESSENTIAL_PAGES <= |k.free| && LoadedUpTo(k, p)
    ensures Sound(LoadAll(k, p), n) && LoadedUpTo(LoadAll(k, p), n)
    decreases n - p
  {
    if p < n {
      OneMoreLoaded(k, n, p);
      LoadAllFacts(LoadTen(k, p, 0), n, p + 1);
    }
  }

  lemma InitInv(c: Config)
    requires ConfigOk(c)
    ensures Inv(c, Init(c)) && |Init(c).k.free| == Spare(c)
    ensures forall p | 0 <= p < |c.sizes| :: OnlyEssential(Init(c).k, p)
  {
    var n := |c.sizes|;
    FreshSound(n);
    LoadAllFacts(FreshKernel(n), n, 0);
    LoadedInv(c, Init(c));
  }

  /** A start from any kernel in which everybody has the essential pages. */
  lemma LoadedInv(c: Config, s: Sys)
    requires ConfigOk(c) && Sound(s.k, |c.sizes|) && LoadedUpTo(s.k, |c.sizes|) && |s.k.free| == Spare(c)
    requires s.scnt == seq(|c.sizes|, _ => 0) && s.ready == seq(|c.sizes|, (i: nat) => i)
    ensures Inv(c, s)
  {
    InitShape(c, s.k, s);
    InitFirst(c, s);
  }

  lemma InitFirst(c: Config, s: Sys)
    requires SysShape(c, s) && |s.k.free| >= Spare(c)
    requires s.scnt == seq(|c.sizes|, _ => 0) && s.ready == seq(|c.sizes|, (i: nat) => i)
    ensures FirstRound(c, s, 0)
  {
  }

  lemma InitShape(c: Config, k: Kernel, s: Sys)
    requires ConfigOk(c) && Shape(k, |c.sizes|) && LoadedUpTo(k, |c.sizes|) && s.k == k
    requires s.scnt == seq(|c.sizes|, _ => 0) && s.ready == seq(|c.sizes|, (i: nat) => i)
    ensures SysShape(c, s) && forall p: nat | p < |c.sizes| :: Ranked(c, s, p)
  {
    forall p: nat | p < |c.sizes|
      ensures Ranked(c, s, p)
    {
      assert s.ready[p] == p;
    }
  }

  // ----- runs

  /** One turn, for some outcomes of rand(). */
  ghost predicate Next(c: Config, s: Sys, t: Sys) {
    && SysShape(c, s) && s.ready != []
    && exists draws: seq<nat> :: |draws| == |NextPages(c, s)| && Turn(c, s, draws) == Some(t)
  }

  ghost predicate RunOf(c: Config, run: seq<Sys>) {
    && ConfigOk(c) && run != [] && run[0] == Init(c)
    && forall i | 0 < i < |run| :: Next(c, run[i - 1], run[i])
  }

  lemma NextInv(c: Config, s: Sys, t: Sys) returns (draws: seq<nat>)
    requires Inv(c, s) && Next(c, s, t)
    ensures s.ready != [] && |draws| == |NextPages(c, s)| && Turn(c, s, draws) == Some(t)
    ensures Inv(c, t)
  {
    draws :| |draws| == |NextPages(c, s)| && Turn(c, s, draws) == Some(t);
    TurnInv(c, s, draws);
  }

  lemma {:induction false} RunInv(c: Config, run: seq<Sys>, i: nat)
    requires RunOf(c, run) && i < |run|
    ensures Inv(c, run[i])
  {
    if i == 0 {
      InitInv(c);
    } else {
      RunInv(c, run, i - 1);
      var draws := NextInv(c, run[i - 1], run[i]);
    }
  }

  /** In every state each frame is in one place, each tag names the page the frame still holds, each
      history is the value of its record, and replacements are the sum of the four attempts. */
  lemma EveryStateIsSound(c: Config, run: seq<Sys>, i: nat)
    requires RunOf(c, run) && i < |run|
    ensures var k := run[i].k; var n := |c.sizes|;
            Whole(k, n) && Truthful(k, n) && Recorded(k) && Counted(k)
  {
    RunInv(c, run, i);
  }

  /** A process that is not done has kept the frames of its ten essential pages since the start. */
  lemma {:induction false} EssentialPagesStay(c: Config, run: seq<Sys>, i: nat, j: nat, p: nat, g: nat)
    requires RunOf(c, run) && i <= j < |run| && p < |c.sizes| && g < ESSENTIAL_PAGES
    requires SysShape(c, run[j]) && run[j].scnt[p] < c.searches
    ensures p < |run[i].k.tables| && p < |run[j].k.tables|
    ensures g in run[i].k.tables[p] && g in run[j].k.tables[p]
    ensures run[i].k.tables[p][g].frame == run[j].k.tables[p][g].frame
    decreases j - i
  {
    RunInv(c, run, j);
    LiveHasEssential(c, run[j], p, g);
    if i < j {
      RunInv(c, run, j - 1);
      TurnKeepsEssential(c, run[j - 1], run[j], p);
      EssentialPagesStay(c, run, i, j - 1, p, g);
    }
  }

  lemma LiveHasEssential(c: Config, s: Sys, p: nat, g: nat)
    requires Inv(c, s) && p < |c.sizes| && s.scnt[p] < c.searches && g < ESSENTIAL_PAGES
    ensures g in s.k.tables[p]
  {
    assert Ranked(c, s, p);
  }

  lemma TurnKeepsEssential(c: Config, s: Sys, t: Sys, p: nat)
    requires Inv(c, s) && Next(c, s, t) && p < |c.sizes| && |t.scnt| == |c.sizes| && t.scnt[p] < c.searches
    ensures SysShape(c, s) && s.scnt[p] < c.searches
    ensures p < |s.k.tables| && p < |t.k.tables|
    ensures forall g | 0 <= g < ESSENTIAL_PAGES ::
              g in s.k.tables[p] && g in t.k.tables[p] && t.k.tables[p][g] == s.k.tables[p][g]
  {
    var draws := NextInv(c, s, t);
    var k := Search(s.k, |c.sizes|, s.ready[0], NextPages(c, s), draws).value;
    SearchOutcome(c, s, draws);
    SettledKernel(c, s, k);
    assert Ranked(c, s, p);
  }

  /** The pool never falls below NFFMIN, provided it is not below from the start; and it is not exactly
      when 10n + 1000 frames fit in memory. */
  lemma PoolFloor(c: Config, run: seq<Sys>)
    requires RunOf(c, run)
    ensures (forall i | 0 <= i < |run| :: |run[i].k.free| >= NFFMIN) <==> 10 * |c.sizes| + NFFMIN <= NFRAMES
  {
    InitInv(c);
    if 10 * |c.sizes| + NFFMIN <= NFRAMES {
      forall i | 0 <= i < |run|
        ensures |run[i].k.free| >= NFFMIN
      {
        RunInv(c, run, i);
      }
    }
  }

  /** With at most 491 processes no search is ever without a victim: whatever rand() gives, the run goes on. */
  lemma VictimAlwaysExists(c: Config, run: seq<Sys>, i: nat, draws: seq<nat>)
    requires RunOf(c, run) && i < |run| && run[i].ready != [] && |c.sizes| <= 491
    requires SysShape(c, run[i]) && |draws| == |NextPages(c, run[i])|
    ensures Turn(c, run[i], draws).Some?
  {
    RunInv(c, run, i);
    TurnSucceeds(c, run[i], draws);
  }

  function ToDo(c: Config, s: Sys): nat
    requires forall p | 0 <= p < |s.scnt| :: s.scnt[p] <= c.searches
  {
    PR.Remaining(s.scnt, c.searches)
  }

  lemma ScntBounded(c: Config, s: Sys)
    requires Inv(c, s)
    ensures forall p | 0 <= p < |s.scnt| :: s.scnt[p] <= c.searches
  {
    forall p: nat | p < |s.scnt|
      ensures s.scnt[p] <= c.searches
    {
      assert Ranked(c, s, p);
    }
  }

  lemma {:induction false} InitToDo(m: nat, n: nat)
    ensures PR.Remaining(seq(n, _ => 0), m) == m * n
  {
    if n > 0 {
      assert seq(n, _ => 0)[1..] == seq(n - 1, _ => 0);
      InitToDo(m, n - 1);
    }
  }

  /** A turn counts one search of the process at the head. */
  lemma TurnCounts(c: Config, s: Sys, draws: seq<nat>)
    requires SysShape(c, s) && s.ready != [] && |draws| == |NextPages(c, s)| && Turn(c, s, draws).Some?
    ensures s.ready[0] < |s.scnt| && s.scnt[s.ready[0]] < c.searches
    ensures Turn(c, s, draws).value.scnt == s.scnt[s.ready[0] := s.scnt[s.ready[0]] + 1]
  {
  }

  lemma OneFewer(c: Config, s: Sys, t: Sys, p: nat)
    requires forall k | 0 <= k < |s.scnt| :: s.scnt[k] <= c.searches
    requires p < |s.scnt| && s.scnt[p] < c.searches && t.scnt == s.scnt[p := s.scnt[p] + 1]
    ensures forall k | 0 <= k < |t.scnt| :: t.scnt[k] <= c.searches
    ensures ToDo(c, t) == ToDo(c, s) - 1
  {
    PR.RemainingDrops(s.scnt, c.searches, p);
  }

  lemma NextCounts(c: Config, s: Sys, t: Sys)
    requires Next(c, s, t) && forall p | 0 <= p < |s.scnt| :: s.scnt[p] <= c.searches
    ensures forall p | 0 <= p < |t.scnt| :: t.scnt[p] <= c.searches
    ensures ToDo(c, t) == ToDo(c, s) - 1
  {
    var draws: seq<nat> :| |draws| == |NextPages(c, s)| && Turn(c, s, draws) == Some(t);
    TurnCounts(c, s, draws);
    OneFewer(c, s, t, s.ready[0]);
  }

  /** Each turn does one search, so after i turns i of the n * m searches are done. */
  lemma {:induction false} EachTurnCounts(c: Config, run: seq<Sys>, i: nat)
    requires RunOf(c, run) && i < |run|
    ensures Inv(c, run[i]) && forall p | 0 <= p < |run[i].scnt| :: run[i].scnt[p] <= c.searches
    ensures ToDo(c, run[i]) + i == c.searches * |c.sizes|
  {
    RunInv(c, run, i);
    ScntBounded(c, run[i]);
    if i == 0 {
      InitToDo(c.searches, |c.sizes|);
    } else {
      EachTurnCounts(c, run, i - 1);
      NextCounts(c, run[i - 1], run[i]);
    }
  }

  /** When the ready list is empty, all searches are done and all frames are free. */
  lemma NothingLeft(c: Config, t: Sys)
    requires Inv(c, t) && t.ready == []
    ensures forall p | 0 <= p < |c.sizes| :: t.scnt[p] == c.searches
    ensures |t.k.free| == NFRAMES
  {
    forall p: nat | p < |c.sizes|
      ensures t.scnt[p] == c.searches && t.k.tables[p] == map[]
    {
      assert Ranked(c, t, p);
    }
    assert forall p | 0 <= p < |c.sizes| :: Frames(t.k).tables[p] == map[];
    PS.EmptyTablesFillThePool(Frames(t.k));
  }

  /** A run has at most n * m turns, and one that empties the ready list has done everything. */
  lemma RunsEnd(c: Config, run: seq<Sys>)
    requires RunOf(c, run)
    ensures |run| <= c.searches * |c.sizes| + 1
    ensures var t := run[|run| - 1];
            t.ready == [] ==> |t.scnt| == |c.sizes| && (forall p | 0 <= p < |c.sizes| :: t.scnt[p] == c.searches)
                              && |t.k.free| == NFRAMES
  {
    var t := run[|run| - 1];
    EachTurnCounts(c, run, |run| - 1);
    if t.ready == [] {
      NothingLeft(c, t);
    }
  }

  // ----- the other simulator's victim search

  /** The victim search that starts from the full history as the smallest so far. */
  function StrictFrom(t: map<nat, Slot>, j: nat): (r: Option<nat>)
    requires j <= PAGE_TABLE_SIZE
    ensures r.Some? ==> r.value in t
    decreases PAGE_TABLE_SIZE - j, |t|
  {
    if j == PAGE_TABLE_SIZE then None
    else
      var rest := StrictFrom(t, j + 1);
      if j in t && t[j].hist < FULL && (rest == None || t[j].hist <= t[rest.value].hist) then Some(j) else rest
  }

  lemma {:induction false} StrictFacts(t: map<nat, Slot>, j: nat)
    requires j <= PAGE_TABLE_SIZE
    ensures StrictFrom(t, j) == None ==> forall g | g in t && j <= g < PAGE_TABLE_SIZE :: t[g].hist >= FULL
    ensures StrictFrom(t, j).Some? ==>
              var q := StrictFrom(t, j).value;
              && q in t && j <= q < PAGE_TABLE_SIZE && t[q].hist < FULL
              && forall g | g in t && j <= g < PAGE_TABLE_SIZE :: t[q].hist < t[g].hist || (t[q].hist == t[g].hist && q <= g)
    decreases PAGE_TABLE_SIZE - j
  {
    if j < PAGE_TABLE_SIZE {
      StrictFacts(t, j + 1);
    }
  }

  /** It finds a page exactly when some data page was not referenced in one of its last sixteen searches
      since it was loaded, and then the same page; otherwise that program drops the process. */
  lemma StrictVictim(k: Kernel, p: nat)
    requires p < |k.tables| && Recorded(k)
    ensures var t := k.tables[p]; var r := StrictFrom(t, ESSENTIAL_PAGES);
            && (r.Some? <==> exists g :: DataPage(t, g) && exists i :: 0 <= i < |t[g].record| && i < WIDTH && !t[g].record[i])
            && (r.Some? ==> Victim(t) == r)
  {
    var t := k.tables[p];
    StrictFacts(t, ESSENTIAL_PAGES);
    VictimFacts(t);
    forall g | DataPage(t, g)
      ensures t[g].hist < FULL <==> exists i :: 0 <= i < |t[g].record| && i < WIDTH && !t[g].record[i]
    {
      FullHistory(t[g].record);
      HistoryInRange(t[g].record);
    }
    var r := StrictFrom(t, ESSENTIAL_PAGES);
    if r.Some? {
      assert DataPage(t, r.value);
      OneVictim(t, r.value, Victim(t).value);
    }
  }

  /** So a process whose data pages were all loaded in the current search is dropped at the floor,
      where the first search would have replaced its lowest page. */
  lemma FreshPagesAreNoStrictVictims(k: Kernel, p: nat, g: nat)
    requires p < |k.tables| && Recorded(k) && DataPage(k.tables[p], g)
    requires forall h | DataPage(k.tables[p], h) :: k.tables[p][h].record == []
    ensures StrictFrom(k.tables[p], ESSENTIAL_PAGES) == None && Victim(k.tables[p]).Some?
  {
    StrictVictim(k, p);
    VictimFacts(k.tables[p]);
  }
}
