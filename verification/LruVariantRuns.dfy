/** Runs of the simulator that drops processes: how they end, and who is dropped at the first search. */
module LruVariantRuns {
  import opened SearchTrace
  import opened LruSpec
  import opened LruRuns
  import opened LruVariant
  import LR = LruRoom
  import LS = LruSystem
  import LT = LruTheorems
  import PR = PagingRuns

  // ----- runs

  predicate CanSearch(c: LS.Config, s: VSys) {
    LS.ConfigOk(c) && |s.scnt| == |c.sizes| && s.ready != [] && s.ready[0] < |c.sizes| && s.scnt[s.ready[0]] < c.searches
  }

  /** The pages the next search touches. */
  function NextPages(c: LS.Config, s: VSys): seq<nat>
    requires CanSearch(c, s)
  {
    PR.Trace(c, s.ready[0], s.scnt[s.ready[0]])
  }

  /** What the next search comes to. */
  function NextSearch(c: LS.Config, s: VSys, draws: seq<nat>): Outcome
    requires CanSearch(c, s) && |draws| == |NextPages(c, s)|
  {
    VSearch(s.k, |c.sizes|, s.ready[0], NextPages(c, s), draws)
  }

  /** One turn, for some outcomes of rand(). */
  ghost predicate Next(c: LS.Config, s: VSys, t: VSys) {
    CanSearch(c, s) && exists draws: seq<nat> :: TurnIs(c, s, draws, t)
  }

  predicate TurnIs(c: LS.Config, s: VSys, draws: seq<nat>, t: VSys)
    requires CanSearch(c, s)
  {
    && |draws| == |NextPages(c, s)|
    && |NextSearch(c, s, draws).k.tables| == |c.sizes|
    && t == VSettle(c.searches, s, NextSearch(c, s, draws))
  }

  ghost predicate RunOf(c: LS.Config, run: seq<VSys>) {
    && LS.ConfigOk(c) && run != [] && run[0] == Start(c)
    && forall i | 0 < i < |run| :: Next(c, run[i - 1], run[i])
  }

  function Floor(c: LS.Config): int {
    PR.Min(NFFMIN, LS.Spare(c))
  }

  ghost predicate Steady(c: LS.Config, s: VSys) {
    Floor(c) > 0 && VInv(|c.sizes|, c.searches, Floor(c), s)
  }

  lemma StartSteady(c: LS.Config)
    requires LS.ConfigOk(c)
    ensures Steady(c, Start(c))
  {
    VStartInv(c);
  }

  lemma ReadyCanSearch(c: LS.Config, s: VSys)
    requires LS.ConfigOk(c) && Steady(c, s) && s.ready != []
    ensures CanSearch(c, s) && DataTrace(NextPages(c, s))
  {
    assert Somewhere(c.searches, s, s.ready[0]);
    LS.TraceFacts(c, s.ready[0], s.scnt[s.ready[0]]);
  }

  lemma NextSteady(c: LS.Config, s: VSys, t: VSys)
    requires Steady(c, s) && Next(c, s, t)
    ensures Steady(c, t)
  {
    ReadyCanSearch(c, s);
    var draws :| TurnIs(c, s, draws, t);
    VTurnInv(|c.sizes|, c.searches, Floor(c), s, NextPages(c, s), draws);
  }

  /** In every state of every run frames, tags, histories and counters are right and everybody is ready,
      dropped or done. */
  lemma {:induction false} RunSteady(c: LS.Config, run: seq<VSys>, i: nat)
    requires RunOf(c, run) && i < |run|
    ensures Steady(c, run[i])
  {
    if i == 0 {
      StartSteady(c);
    } else {
      RunSteady(c, run, i - 1);
      NextSteady(c, run[i - 1], run[i]);
    }
  }

  /** The simulation never stops while somebody is ready: dropping a process is a turn too. */
  lemma AlwaysNext(c: LS.Config, s: VSys, draws: seq<nat>) returns (t: VSys)
    requires LS.ConfigOk(c) && Steady(c, s) && s.ready != []
    requires CanSearch(c, s) && |draws| == |NextPages(c, s)|
    ensures Next(c, s, t) && TurnIs(c, s, draws, t)
  {
    ReadyCanSearch(c, s);
    VTurnInv(|c.sizes|, c.searches, Floor(c), s, NextPages(c, s), draws);
    t := VSettle(c.searches, s, NextSearch(c, s, draws));
    assert TurnIs(c, s, draws, t);
  }

  lemma {:induction false} AllToDo(m: nat, s: VSys, p: nat)
    requires p <= |s.scnt| && s.dropped == {} && forall q | 0 <= q < p :: s.scnt[q] == 0
    ensures VToDo(m, s, p) <= p * m
  {
    if p > 0 {
      AllToDo(m, s, p - 1);
    }
  }

  lemma {:induction false} RunToDo(c: LS.Config, run: seq<VSys>, i: nat, most: nat)
    requires RunOf(c, run) && i < |run| && |run[0].scnt| == |c.sizes| && VToDo(c.searches, run[0], |c.sizes|) <= most
    ensures |run[i].scnt| == |c.sizes| && i + VToDo(c.searches, run[i], |c.sizes|) <= most
  {
    if i > 0 {
      RunToDo(c, run, i - 1, most);
      RunSteady(c, run, i - 1);
      NextToDo(c, run[i - 1], run[i]);
    }
  }

  lemma NextToDo(c: LS.Config, s: VSys, t: VSys)
    requires Steady(c, s) && Next(c, s, t)
    ensures |t.scnt| == |s.scnt| == |c.sizes| && VToDo(c.searches, t, |c.sizes|) < VToDo(c.searches, s, |c.sizes|)
  {
    var draws :| TurnIs(c, s, draws, t);
    VTurnProgress(|c.sizes|, c.searches, Floor(c), s, NextSearch(c, s, draws));
  }

  /** A run has at most n m turns, and when nobody is ready everybody is either done or dropped. */
  lemma RunsEnd(c: LS.Config, run: seq<VSys>)
    requires RunOf(c, run)
    ensures |run| <= |c.sizes| * c.searches + 1
    ensures var t := run[|run| - 1];
      |t.scnt| == |c.sizes| && (t.ready == [] ==> forall p: nat | p < |c.sizes| :: p in t.dropped <==> t.scnt[p] != c.searches)
  {
    var i := |run| - 1;
    AllToDo(c.searches, Start(c), |c.sizes|);
    RunToDo(c, run, i, |c.sizes| * c.searches);
    RunSteady(c, run, i);
    forall p: nat | p < |c.sizes| && run[i].ready == []
      ensures p in run[i].dropped <==> run[i].scnt[p] != c.searches
    {
      assert Somewhere(c.searches, run[i], p);
    }
  }

  // ----- a first search

  /** No data page of p has been through the end of a search. */
  predicate Fresh(k: Kernel, p: nat)
    requires p < |k.tables|
  {
    forall g | g in k.tables[p] && DataPage(k.tables[p], g) :: k.tables[p][g].record == []
  }

  /** While all its data pages are fresh, p is dropped at the first page it misses at the floor. */
  lemma FreshAccess(k: Kernel, n: nat, p: nat, page: nat, draw: nat)
    requires Intact(k, n) && p < n && ESSENTIAL_PAGES <= page < PAGE_TABLE_SIZE && k.free != [] && Fresh(k, p)
    ensures var r := VAccess(k, p, page, draw);
      && (r.ok <==> page in k.tables[p] || |k.free| > NFFMIN)
      && |r.k.free| == (if page !in k.tables[p] && |k.free| > NFFMIN then |k.free| - 1 else |k.free|)
      && |r.k.tables| == n && (forall o | 0 <= o < n && o != p :: r.k.tables[o] == k.tables[o])
      && (r.ok ==> r.k.tables[p].Keys == k.tables[p].Keys + {page} && Fresh(r.k, p))
  {
    LT.StrictVictim(k, p);
  }

  /** What leaves the pool is in the table of p. */
  lemma FreshBalances(k: Kernel, n: nat, p: nat, page: nat, draw: nat)
    requires Intact(k, n) && p < n && ESSENTIAL_PAGES <= page < PAGE_TABLE_SIZE && k.free != [] && Fresh(k, p)
    requires VAccess(k, p, page, draw).ok
    ensures var t := VAccess(k, p, page, draw).k; |t.tables| == n && |t.free| + |t.tables[p]| == |k.free| + |k.tables[p]|
  {
    FreshAccess(k, n, p, page, draw);
    var t := VAccess(k, p, page, draw).k;
    assert |t.tables[p]| == |t.tables[p].Keys| && |k.tables[p]| == |k.tables[p].Keys|;
  }

  /** So a search with fresh pages goes through exactly if there is a frame above the floor for each
      distinct page it misses; and it lowers the pool by those, but not below the floor. */
  lemma {:induction false} FreshSearch(k: Kernel, n: nat, p: nat, pages: seq<nat>, draws: seq<nat>)
    requires Intact(k, n) && p < n && |draws| == |pages| && DataTrace(pages) && k.free != [] && Fresh(k, p)
    ensures var r := VSearch(k, n, p, pages, draws); var missing := |Missing(k, p, pages)|;
      && (r.ok <==> missing == 0 || missing <= |k.free| - NFFMIN)
      && |r.k.free| == LR.Lowered(|k.free|, missing)
      && |r.k.tables| == n && (forall o | 0 <= o < n && o != p :: r.k.tables[o] == k.tables[o])
    decreases |pages|
  {
    if pages == [] {
      assert Missing(k, p, pages) == {};
    } else {
      var r := VAccess(k, p, pages[0], draws[0]);
      FreshAccess(k, n, p, pages[0], draws[0]);
      if r.ok {
        VAccessIntact(k, n, p, pages[0], draws[0]);
        MissingAfter(k, r.k, p, pages);
        FreshSearch(r.k, n, p, pages[1..], draws[1..]);
      } else {
        assert pages[0] in Missing(k, p, pages);
      }
    }
  }

  /** The frames in the pool and behind the pages of p. */
  function Share(k: Kernel, p: nat): nat
    requires p < |k.tables|
  {
    |k.free| + |k.tables[p]|
  }

  /** Sound, with something free, the data pages of p fresh, and its share of the frames so large. */
  ghost predicate Fine(k: Kernel, n: nat, p: nat, share: nat) {
    p < n && Intact(k, n) && k.free != [] && Fresh(k, p) && Share(k, p) == share
  }

  lemma FreshStep(k: Kernel, n: nat, p: nat, page: nat, draw: nat, share: nat)
    requires Fine(k, n, p, share) && ESSENTIAL_PAGES <= page < PAGE_TABLE_SIZE && VAccess(k, p, page, draw).ok
    ensures Fine(VAccess(k, p, page, draw).k, n, p, share)
  {
    FreshAccess(k, n, p, page, draw);
    FreshBalances(k, n, p, page, draw);
    VAccessIntact(k, n, p, page, draw);
  }

  lemma FirstAccessOf(k: Kernel, n: nat, p: nat, pages: seq<nat>, draws: seq<nat>, share: nat)
    requires Fine(k, n, p, share) && |draws| == |pages| > 0 && VSearch(k, n, p, pages, draws).ok
    ensures var r := VAccess(k, p, pages[0], draws[0]);
      r.ok && VSearch(k, n, p, pages, draws) == VSearch(r.k, n, p, pages[1..], draws[1..])
  {
  }

  lemma {:induction false} FreshSearchBalances(k: Kernel, n: nat, p: nat, pages: seq<nat>, draws: seq<nat>, share: nat)
    requires Fine(k, n, p, share) && |draws| == |pages| && DataTrace(pages) && VSearch(k, n, p, pages, draws).ok
    ensures Fine(VSearch(k, n, p, pages, draws).k, n, p, share)
    decreases |pages|
  {
    if pages != [] {
      FirstAccessOf(k, n, p, pages, draws, share);
      assert DataTrace(pages[1..]);
      FreshStep(k, n, p, pages[0], draws[0], share);
      FreshSearchBalances(VAccess(k, p, pages[0], draws[0]).k, n, p, pages[1..], draws[1..], share);
    }
  }

  // ----- the first round

  /** What is in the pool after d turns: a process that has made its only search gives everything back. */
  function Pool(c: LS.Config, d: nat): int
    requires LS.ConfigOk(c) && d <= |c.sizes|
    decreases d, 0
  {
    if d == 0 then LS.Spare(c)
    else if c.searches == 1 && !Dropped(c, d - 1) then Pool(c, d - 1) + ESSENTIAL_PAGES
    else LR.Lowered(Pool(c, d - 1), |Distinct(PR.Trace(c, d - 1, 0))|)
  }

  /** The first search of process p touches more pages than there are frames above the floor. */
  predicate Dropped(c: LS.Config, p: nat)
    requires LS.ConfigOk(c) && p < |c.sizes|
    decreases p, 1
  {
    c.sizes[p] >= 2 && |Distinct(PR.Trace(c, p, 0))| > Pool(c, p) - NFFMIN
  }

  /** With two searches or more for everybody: the first searches so far want more than there is. */
  lemma {:induction false} DroppedForWant(c: LS.Config, p: nat)
    requires LS.ConfigOk(c) && p < |c.sizes| && c.searches >= 2
    ensures Pool(c, p) == LR.Lowered(LS.Spare(c), LR.Wanted(c, p))
    ensures Dropped(c, p) <==> c.sizes[p] >= 2 && LS.Spare(c) - LR.Wanted(c, p + 1) < NFFMIN
  {
    LS.TraceFacts(c, p, 0);
    if c.sizes[p] >= 2 {
      assert PR.Trace(c, p, 0)[0] in Distinct(PR.Trace(c, p, 0));
    }
    if p > 0 {
      DroppedForWant(c, p - 1);
    }
  }

  /** The first d processes have made their first search or been dropped in it; the others have only
      essential pages. */
  ghost predicate AtTurn(c: LS.Config, s: VSys, d: nat) {
    && LS.ConfigOk(c) && Steady(c, s) && d <= |c.sizes|
    && |c.sizes| - d <= |s.ready| && (forall i | 0 <= i < |c.sizes| - d :: s.ready[i] == d + i)
    && (forall q | d <= q < |c.sizes| :: s.scnt[q] == 0 && JustEssential(s.k, q))
    && |s.k.free| == Pool(c, d)
  }

  predicate JustEssential(k: Kernel, p: nat)
    requires p < |k.tables|
  {
    LT.OnlyEssential(k, p) && |k.tables[p]| == ESSENTIAL_PAGES
  }

  lemma StartAtTurn(c: LS.Config)
    requires LS.ConfigOk(c)
    ensures AtTurn(c, Start(c), 0)
  {
    StartSteady(c);
    StartBegun(c);
    StartLoaded(c);
    AllEssential(c);
    FreshAtTurn(c, Start(c));
  }

  lemma FreshAtTurn(c: LS.Config, s: VSys)
    requires LS.ConfigOk(c) && Steady(c, s) && Begun(c, s)
    requires forall q: nat | q < |c.sizes| :: JustEssential(s.k, q)
    ensures AtTurn(c, s, 0)
  {
  }

  lemma AllEssential(c: LS.Config)
    requires LS.ConfigOk(c) && LT.LoadedUpTo(LT.LoadAll(FreshList(|c.sizes|), 0), |c.sizes|)
    ensures |Start(c).k.tables| == |c.sizes| && forall q: nat | q < |c.sizes| :: JustEssential(Start(c).k, q)
  {
    forall q: nat | q < |c.sizes|
      ensures JustEssential(Start(c).k, q)
    {
      StartEssential(c, q);
    }
  }

  lemma StartEssential(c: LS.Config, q: nat)
    requires LS.ConfigOk(c) && q < |c.sizes| && LT.LoadedUpTo(LT.LoadAll(FreshList(|c.sizes|), 0), |c.sizes|)
    ensures |Start(c).k.tables| == |c.sizes| && JustEssential(Start(c).k, q)
  {
    var k := LT.LoadAll(FreshList(|c.sizes|), 0);
    LR.EssentialSize(k, q);
    var now := Start(c).k.tables[q];
    assert now == Untouched(k.tables[q]) && now.Keys == k.tables[q].Keys;
    assert |now| == |now.Keys| && |k.tables[q]| == |k.tables[q].Keys|;
  }

  /** The first search of process d. */
  lemma FirstSearch(c: LS.Config, s: VSys, d: nat, draws: seq<nat>)
    requires AtTurn(c, s, d) && d < |c.sizes| && CanSearch(c, s) && s.ready[0] == d && |draws| == |NextPages(c, s)|
    ensures var r := NextSearch(c, s, draws);
      && (r.ok <==> !Dropped(c, d))
      && |r.k.free| == LR.Lowered(Pool(c, d), |Distinct(PR.Trace(c, d, 0))|)
      && |r.k.tables| == |c.sizes| && (forall o | 0 <= o < |c.sizes| && o != d :: r.k.tables[o] == s.k.tables[o])
      && (r.ok ==> |r.k.free| + |r.k.tables[d]| == Pool(c, d) + ESSENTIAL_PAGES)
  {
    var pages := NextPages(c, s);
    LS.TraceFacts(c, d, 0);
    assert JustEssential(s.k, d);
    FreshSearch(s.k, |c.sizes|, d, pages, draws);
    if NextSearch(c, s, draws).ok {
      FreshSearchBalances(s.k, |c.sizes|, d, pages, draws, Share(s.k, d));
    }
    LR.AllMissing(s.k, d, pages);
    if pages != [] {
      assert pages[0] in Distinct(pages);
    }
  }

  /** What the release of a finished process gives. */
  lemma AllReleased(k: Kernel, n: nat, p: nat)
    requires Shape(k, n) && p < n
    ensures |Release(VAge(k, p), p).free| == |k.free| + |k.tables[p]|
    ensures Release(VAge(k, p), p).tables == k.tables[p := map[]]
  {
    var aged := VAge(k, p);
    assert aged.tables[p].Keys == k.tables[p].Keys;
    assert |aged.tables[p]| == |aged.tables[p].Keys| && |k.tables[p]| == |k.tables[p].Keys|;
    LR.ReleaseFills(aged, p, 0);
    ReleaseFromTables(aged, p, 0);
    assert aged.tables[p := map[]] == k.tables[p := map[]];
  }

  lemma PoolAfter(c: LS.Config, s: VSys, d: nat, draws: seq<nat>)
    requires AtTurn(c, s, d) && d < |c.sizes| && CanSearch(c, s) && s.ready[0] == d && |draws| == |NextPages(c, s)|
    ensures var r := NextSearch(c, s, draws);
      && |r.k.tables| == |c.sizes|
      && var t := VSettle(c.searches, s, r);
         |t.k.free| == Pool(c, d + 1) && |t.k.tables| == |c.sizes|
         && (forall o | 0 <= o < |c.sizes| && o != d :: t.k.tables[o] == s.k.tables[o])
  {
    FirstSearch(c, s, d, draws);
    SearchShape(c, s, draws);
    var r := NextSearch(c, s, draws);
    if r.ok && c.searches == 1 {
      AllReleased(r.k, |c.sizes|, d);
    }
  }

  lemma SearchShape(c: LS.Config, s: VSys, draws: seq<nat>)
    requires LS.ConfigOk(c) && Steady(c, s) && CanSearch(c, s) && |draws| == |NextPages(c, s)|
    ensures Shape(NextSearch(c, s, draws).k, |c.sizes|)
  {
    ReadyCanSearch(c, s);
    assert Somewhere(c.searches, s, s.ready[0]);
    VSearchKeeps(s.k, |c.sizes|, s.ready[0], NextPages(c, s), draws, Floor(c));
  }

  lemma TurnAt(c: LS.Config, s: VSys, t: VSys, d: nat)
    requires AtTurn(c, s, d) && d < |c.sizes| && Next(c, s, t)
    ensures d in t.dropped <==> Dropped(c, d)
    ensures AtTurn(c, t, d + 1)
  {
    assert s.ready[0] == d + 0;
    assert Somewhere(c.searches, s, d);
    var draws :| TurnIs(c, s, draws, t);
    FirstSearch(c, s, d, draws);
    PoolAfter(c, s, d, draws);
    NextSteady(c, s, t);
    OthersKeep(c, s, t, d);
  }

  lemma OthersKeep(c: LS.Config, s: VSys, t: VSys, d: nat)
    requires AtTurn(c, s, d) && d < |c.sizes| && s.ready[0] == d && |t.scnt| == |c.sizes| == |t.k.tables|
    requires t.ready == s.ready[1..] || t.ready == s.ready[1..] + [d]
    requires t.scnt == s.scnt || (s.scnt[d] == 0 && t.scnt == s.scnt[d := 1])
    requires forall o | 0 <= o < |c.sizes| && o != d :: t.k.tables[o] == s.k.tables[o]
    ensures |c.sizes| - (d + 1) <= |t.ready| && (forall i | 0 <= i < |c.sizes| - (d + 1) :: t.ready[i] == d + 1 + i)
    ensures forall q | d + 1 <= q < |c.sizes| :: t.scnt[q] == 0 && JustEssential(t.k, q)
  {
    forall i | 0 <= i < |c.sizes| - (d + 1)
      ensures t.ready[i] == d + 1 + i
    {
      assert s.ready[i + 1] == d + (i + 1) && t.ready[i] == s.ready[1..][i];
    }
    forall q: nat | d + 1 <= q < |c.sizes|
      ensures t.scnt[q] == 0 && JustEssential(t.k, q)
    {
      assert JustEssential(s.k, q) && t.k.tables[q] == s.k.tables[q];
    }
  }

  lemma {:induction false} RunAtTurn(c: LS.Config, run: seq<VSys>, d: nat)
    requires RunOf(c, run) && d < |run| && d <= |c.sizes|
    ensures AtTurn(c, run[d], d)
  {
    if d == 0 {
      StartAtTurn(c);
    } else {
      RunAtTurn(c, run, d - 1);
      TurnAt(c, run[d - 1], run[d], d - 1);
    }
  }

  /** Process p is dropped in its first search exactly when that search touches more distinct pages than
      there are frames above the floor by then, which sizes and first searches decide. */
  lemma DroppedAtFirst(c: LS.Config, run: seq<VSys>, p: nat)
    requires RunOf(c, run) && p < |c.sizes| && p + 1 < |run|
    ensures p in run[p + 1].dropped <==> Dropped(c, p)
  {
    RunAtTurn(c, run, p);
    TurnAt(c, run[p], run[p + 1], p);
  }

  /** The very first access of a run fails exactly when the essential pages leave no more than the floor. */
  lemma FirstAccess(c: LS.Config, draw: nat)
    requires LS.ConfigOk(c) && c.sizes != [] && c.sizes[0] >= 2
    ensures PR.Trace(c, 0, 0) != [] && Sized(Start(c).k, 0) && Start(c).k.free != []
    ensures !VAccess(Start(c).k, 0, PR.Trace(c, 0, 0)[0], draw).ok <==> |c.sizes| >= 1129
  {
    StartAtTurn(c);
    FirstAccessAt(c, Start(c), draw);
  }

  lemma FirstAccessAt(c: LS.Config, s: VSys, draw: nat)
    requires AtTurn(c, s, 0) && c.sizes != [] && c.sizes[0] >= 2
    ensures PR.Trace(c, 0, 0) != [] && Sized(s.k, 0) && s.k.free != []
    ensures !VAccess(s.k, 0, PR.Trace(c, 0, 0)[0], draw).ok <==> |c.sizes| >= 1129
  {
    LS.TraceFacts(c, 0, 0);
    assert JustEssential(s.k, 0);
    FreshAccess(s.k, |c.sizes|, 0, PR.Trace(c, 0, 0)[0], draw);
  }

  // ----- a process dropped in the middle of its first search

  /** A run of one turn. */
  lemma OneTurn(c: LS.Config) returns (run: seq<VSys>)
    requires LS.ConfigOk(c) && c.sizes != []
    ensures RunOf(c, run) && |run| == 2
  {
    StartAtTurn(c);
    var s := Start(c);
    ReadyCanSearch(c, s);
    var t := AlwaysNext(c, s, seq(|NextPages(c, s)|, _ => 0));
    run := [s, t];
  }

  /** A search to the left in a large array touches a page for each halving, and one more. */
  lemma {:induction false} ManyPages(h: nat, reach: nat)
    requires reach == Reach(h)
    ensures |Distinct(Pages(0, reach, 0))| >= h + 1
  {
    ReachIsWhole(h);
    var mid := reach / 2;
    LeftPages(reach, mid);
    var rest := Distinct(Pages(0, mid, 0));
    if h == 0 {
      SubsetSize({PageOf(mid)}, rest + {PageOf(mid)});
    } else {
      ManyPages(h - 1, mid);
      FarPage(h, mid);
      assert |rest + {PageOf(mid)}| == |rest| + 1;
    }
  }

  lemma FarPage(h: nat, mid: nat)
    requires h > 0 && mid == Reach(h - 1)
    ensures PageOf(mid) !in Distinct(Pages(0, mid, 0))
  {
    ReachIsWhole(h - 1);
    PagesWithin(0, mid, 0);
    PageBefore(mid, mid / 1024);
    Beyond(Pages(0, mid, 0), PageOf(mid - 1), PageOf(mid));
  }

  lemma PageBefore(mid: nat, q: nat)
    requires mid == 1024 * q && q > 0
    ensures PageOf(mid - 1) < PageOf(mid)
  {
    assert mid * 4 == 4096 * q && (mid - 1) * 4 == 4096 * (q - 1) + 4092;
  }

  lemma Beyond(pages: seq<nat>, top: nat, g: nat)
    requires top < g && forall k | 0 <= k < |pages| :: pages[k] <= top
    ensures g !in Distinct(pages)
  {
  }

  lemma LeftPages(right: nat, mid: nat)
    requires right > 0 && mid == right / 2
    ensures Distinct(Pages(0, right, 0)) == Distinct(Pages(0, mid, 0)) + {PageOf(mid)}
  {
    assert Pages(0, right, 0) == [PageOf(mid)] + Pages(0, mid, 0);
  }

  lemma {:induction false} ReachIsWhole(h: nat)
    ensures Reach(h) % 1024 == 0 && Reach(h) >= 1024
  {
    if h > 0 {
      ReachIsWhole(h - 1);
    }
  }

  /** 1128 processes with one search each, of which only the first has an array. */
  function Crowded(size: nat): LS.Config {
    PR.Config(seq(1128, p => if p == 0 then size else 0), seq(1128, _ => [0]), 1)
  }

  /** With a little over a million elements it finds the pool above the floor, and is dropped all the same. */
  lemma DroppedMidSearch(size: nat) returns (run: seq<VSys>)
    requires size == 1048577
    ensures LS.ConfigOk(Crowded(size)) && LS.Spare(Crowded(size)) > NFFMIN
    ensures RunOf(Crowded(size), run) && |run| == 2 && 0 in run[1].dropped
  {
    assert Reach(5) == 32768 && Reach(10) == 1048576;
    CrowdedOk(size);
    run := FirstIsDropped(Crowded(size));
  }

  lemma FirstIsDropped(c: LS.Config) returns (run: seq<VSys>)
    requires LS.ConfigOk(c) && c.sizes != [] && c.sizes[0] >= 2
    requires |Distinct(PR.Trace(c, 0, 0))| > LS.Spare(c) - NFFMIN
    ensures RunOf(c, run) && |run| == 2 && 0 in run[1].dropped
  {
    run := OneTurn(c);
    DroppedAtFirst(c, run, 0);
  }

  lemma CrowdedOk(size: nat)
    requires size == Reach(10) + 1 && size <= MAX_SIZE
    ensures var c := Crowded(size);
      LS.ConfigOk(c) && |c.sizes| == 1128 && c.sizes[0] == size >= 2 && LS.Spare(c) == 1008 && |Distinct(PR.Trace(c, 0, 0))| >= 11
  {
    ReachIsWhole(10);
    ManyPages(10, size - 1);
    CrowdedTrace(size);
  }

  lemma CrowdedTrace(size: nat)
    requires 2 <= size <= MAX_SIZE
    ensures var c := Crowded(size); LS.ConfigOk(c) && PR.Trace(c, 0, 0) == Pages(0, size - 1, 0)
  {
  }
}
