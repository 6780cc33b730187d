/** The same of the simulator that drops processes: what its records say of searches, which page is replaced,
    and when, in terms of searches, its process is dropped. */
module LruVariantUses {
  import opened SearchTrace
  import opened History
  import opened LruSpec
  import opened LruRuns
  import opened LruUses
  import opened LruVariant
  import opened LruVariantRuns
  import LS = LruSystem
  import LT = LruTheorems

  // ----- a search

  lemma VAccessTouches(k: Kernel, p: nat, page: nat, draw: nat)
    requires Sized(k, p) && k.free != []
    ensures var r := VAccess(k, p, page, draw);
      |r.k.tables| == |k.tables| && if r.ok then Touched(k.tables[p], page, r.k.tables[p]) else r.k.tables == k.tables
  {
  }

  lemma {:induction false} VSearchRemembers(c: LS.Config, k: Kernel, n: nat, p: nat, done: nat, pages: seq<nat>, draws: seq<nat>, before: seq<nat>)
    requires p < |c.sizes| == |c.keys| && done <= |c.keys[p]| && p < n == |k.tables| && |draws| == |pages|
    requires Remembers(c, p, done, k.tables[p]) && Marks(k.tables[p], before)
    ensures var r := VSearch(k, n, p, pages, draws);
      |r.k.tables| == n && Remembers(c, p, done, r.k.tables[p]) && (r.ok ==> Marks(r.k.tables[p], before + pages))
    decreases |pages|
  {
    if pages == [] {
      assert before + pages == before;
    } else if Shape(k, n) && k.free != [] {
      var r := VAccess(k, p, pages[0], draws[0]);
      VAccessTouches(k, p, pages[0], draws[0]);
      if r.ok {
        TouchedRemembers(c, p, done, k.tables[p], pages[0], r.k.tables[p], before);
        VSearchRemembers(c, r.k, n, p, done, pages[1..], draws[1..], before + [pages[0]]);
        assert before + [pages[0]] + pages[1..] == before + pages;
      }
    }
  }

  /** After m accesses of this search page g is missing, and the next is to g. */
  predicate VLoadedAt(k: Kernel, n: nat, p: nat, pages: seq<nat>, draws: seq<nat>, m: nat, g: nat)
    requires p < n && |draws| == |pages|
  {
    && m < |pages| && pages[m] == g
    && (var r := VSearch(k, n, p, pages[..m], draws[..m]); r.ok && |r.k.tables| == n && g !in r.k.tables[p])
  }

  ghost predicate VLoadedIn(k: Kernel, n: nat, p: nat, pages: seq<nat>, draws: seq<nat>, g: nat)
    requires p < n && |draws| == |pages|
  {
    exists m: nat :: VLoadedAt(k, n, p, pages, draws, m, g)
  }

  lemma VLoadedLater(k: Kernel, n: nat, p: nat, pages: seq<nat>, draws: seq<nat>, g: nat)
    requires p < n && |draws| == |pages| && pages != [] && Shape(k, n) && k.free != [] && VAccess(k, p, pages[0], draws[0]).ok
    requires VLoadedIn(VAccess(k, p, pages[0], draws[0]).k, n, p, pages[1..], draws[1..], g)
    ensures VLoadedIn(k, n, p, pages, draws, g)
  {
    var k1 := VAccess(k, p, pages[0], draws[0]).k;
    var m: nat :| VLoadedAt(k1, n, p, pages[1..], draws[1..], m, g);
    assert pages[..m + 1][1..] == pages[1..][..m] && draws[..m + 1][1..] == draws[1..][..m];
    assert VLoadedAt(k, n, p, pages, draws, m + 1, g);
  }

  lemma {:induction false} VSearchLoads(k: Kernel, n: nat, p: nat, pages: seq<nat>, draws: seq<nat>, g: nat)
    requires p < n == |k.tables| && |draws| == |pages| && VSearch(k, n, p, pages, draws).ok
    ensures |VSearch(k, n, p, pages, draws).k.tables| == n
    ensures var u := VSearch(k, n, p, pages, draws).k.tables[p];
      g in u ==> Stayed(k.tables[p], u, g) || (VLoadedIn(k, n, p, pages, draws, g) && u[g].record == [])
    decreases |pages|
  {
    if pages != [] {
      var k1 := VAccess(k, p, pages[0], draws[0]).k;
      VAccessTouches(k, p, pages[0], draws[0]);
      VSearchLoads(k1, n, p, pages[1..], draws[1..], g);
      if VLoadedIn(k1, n, p, pages[1..], draws[1..], g) {
        VLoadedLater(k, n, p, pages, draws, g);
      }
      if g == pages[0] && g !in k.tables[p] {
        assert pages[..0] == [] && draws[..0] == [];
        assert VLoadedAt(k, n, p, pages, draws, 0, g);
      }
    }
  }

  lemma VAgeRemembers(c: LS.Config, k: Kernel, p: nat, done: nat, pages: seq<nat>)
    requires p < |c.sizes| == |c.keys| && done < |c.keys[p]| && p < |k.tables|
    requires Remembers(c, p, done, k.tables[p]) && Marks(k.tables[p], pages) && pages == PagesFor(c.sizes[p], c.keys[p][done])
    ensures var t := VAge(k, p).tables[p];
      && Remembers(c, p, done + 1, t) && Marks(t, []) && Written(t) && t.Keys == k.tables[p].Keys
      && forall g | g in t && ESSENTIAL_PAGES <= g :: |t[g].record| == |k.tables[p][g].record| + 1
  {
  }

  // ----- runs

  predicate RanksAt(c: LS.Config, s: VSys, p: nat) {
    LS.ConfigOk(c) && p < |c.sizes| == |s.scnt| == |s.k.tables| && s.scnt[p] <= c.searches
  }

  /** Between two turns, of a process that has not been dropped. */
  predicate Recalls(c: LS.Config, s: VSys, p: nat)
    requires RanksAt(c, s, p)
  {
    p !in s.dropped ==> Remembers(c, p, s.scnt[p], s.k.tables[p]) && Marks(s.k.tables[p], []) && Written(s.k.tables[p])
  }

  ghost predicate AllRecall(c: LS.Config, s: VSys) {
    Steady(c, s) && forall p: nat | p < |c.sizes| :: RanksAt(c, s, p) && Recalls(c, s, p)
  }

  lemma StartRecalls(c: LS.Config)
    requires LS.ConfigOk(c)
    ensures AllRecall(c, Start(c))
  {
    StartSteady(c);
    StartLoaded(c);
    forall p: nat | p < |c.sizes|
      ensures RanksAt(c, Start(c), p) && Recalls(c, Start(c), p)
    {
      assert LT.OnlyEssential(LT.LoadAll(FreshList(|c.sizes|), 0), p);
    }
  }

  lemma HeadSearches(c: LS.Config, s: VSys, draws: seq<nat>)
    requires AllRecall(c, s) && CanSearch(c, s) && |draws| == |NextPages(c, s)|
    ensures var p, r := s.ready[0], NextSearch(c, s, draws);
      && p < |c.sizes| == |r.k.tables| && s.scnt[p] < c.searches && RanksAt(c, s, p) && p !in s.dropped
      && Remembers(c, p, s.scnt[p], r.k.tables[p]) && (r.ok ==> Marks(r.k.tables[p], NextPages(c, s)))
      && NextPages(c, s) == PagesFor(c.sizes[p], c.keys[p][s.scnt[p]])
  {
    var p := s.ready[0];
    assert RanksAt(c, s, p) && Recalls(c, s, p) && Somewhere(c.searches, s, p);
    VSearchRemembers(c, s.k, |c.sizes|, p, s.scnt[p], NextPages(c, s), draws, []);
    assert [] + NextPages(c, s) == NextPages(c, s);
  }

  /** The tables after a turn: that of its process is as the search left it if it is dropped, or else aged,
      or empty after the last search. */
  lemma TurnTables(c: LS.Config, s: VSys, draws: seq<nat>, t: VSys)
    requires LS.ConfigOk(c) && Steady(c, s) && CanSearch(c, s) && TurnIs(c, s, draws, t)
    ensures var p, r := s.ready[0], NextSearch(c, s, draws);
      && p < |c.sizes| == |t.k.tables| == |s.k.tables| == |r.k.tables|
      && (forall o | 0 <= o < |c.sizes| && o != p :: t.k.tables[o] == s.k.tables[o])
      && (if r.ok then t.dropped == s.dropped && t.scnt == s.scnt[p := s.scnt[p] + 1]
                       && (t.k.tables[p] == VAge(r.k, p).tables[p] || t.k.tables[p] == map[])
          else t.dropped == s.dropped + {p} && t.scnt == s.scnt)
  {
    ReadyCanSearch(c, s);
    SearchShape(c, s, draws);
    var p, r := s.ready[0], NextSearch(c, s, draws);
    VSearchOthers(s.k, |c.sizes|, p, NextPages(c, s), draws);
    if r.ok {
      AllReleased(r.k, |c.sizes|, p);
    }
  }

  lemma {:induction false} VSearchOthers(k: Kernel, n: nat, p: nat, pages: seq<nat>, draws: seq<nat>)
    requires p < n == |k.tables| && |draws| == |pages|
    ensures var r := VSearch(k, n, p, pages, draws);
      |r.k.tables| == n && forall o | 0 <= o < n && o != p :: r.k.tables[o] == k.tables[o]
    decreases |pages|
  {
    if pages != [] && Shape(k, n) && k.free != [] {
      var r := VAccess(k, p, pages[0], draws[0]);
      if r.ok {
        VSearchOthers(r.k, n, p, pages[1..], draws[1..]);
      }
    }
  }

  lemma OwnRecalls(c: LS.Config, s: VSys, draws: seq<nat>, t: VSys)
    requires AllRecall(c, s) && CanSearch(c, s) && TurnIs(c, s, draws, t)
    ensures RanksAt(c, t, s.ready[0]) && Recalls(c, t, s.ready[0])
  {
    var p := s.ready[0];
    TurnTables(c, s, draws, t);
    HeadSearches(c, s, draws);
    if NextSearch(c, s, draws).ok {
      VAgeRemembers(c, NextSearch(c, s, draws).k, p, s.scnt[p], NextPages(c, s));
    }
  }

  lemma NextRecalls(c: LS.Config, s: VSys, t: VSys)
    requires AllRecall(c, s) && Next(c, s, t)
    ensures AllRecall(c, t)
  {
    var draws :| TurnIs(c, s, draws, t);
    NextSteady(c, s, t);
    OwnRecalls(c, s, draws, t);
    TurnTables(c, s, draws, t);
    forall o: nat | o < |c.sizes|
      ensures RanksAt(c, t, o) && Recalls(c, t, o)
    {
      assert RanksAt(c, s, o) && Recalls(c, s, o);
    }
  }

  lemma {:induction false} RunRecalls(c: LS.Config, run: seq<VSys>, j: nat)
    requires RunOf(c, run) && j < |run|
    ensures AllRecall(c, run[j])
  {
    if j == 0 {
      StartRecalls(c);
    } else {
      RunRecalls(c, run, j - 1);
      NextRecalls(c, run[j - 1], run[j]);
    }
  }

  // ----- since when

  /** In this turn, p's, page g was loaded, and the search got through. */
  ghost predicate LoadTurn(c: LS.Config, s: VSys, t: VSys, p: nat, g: nat) {
    && CanSearch(c, s) && s.ready[0] == p
    && exists draws: seq<nat> :: TurnIs(c, s, draws, t) && NextSearch(c, s, draws).ok
                                 && VLoadedIn(s.k, |c.sizes|, p, NextPages(c, s), draws, g)
  }

  lemma OwnFollows(c: LS.Config, s: VSys, draws: seq<nat>, t: VSys, g: nat)
    requires AllRecall(c, s) && CanSearch(c, s) && TurnIs(c, s, draws, t) && ESSENTIAL_PAGES <= g && NextSearch(c, s, draws).ok
    ensures RanksAt(c, s, s.ready[0]) && RanksAt(c, t, s.ready[0])
    ensures var p := s.ready[0];
      forall later: bool :: Follows(Look(s.k.tables[p], s.scnt[p], LoadTurn(c, s, t, p, g)), Look(t.k.tables[p], t.scnt[p], later), g)
  {
    var p := s.ready[0];
    OwnRecalls(c, s, draws, t);
    TurnTables(c, s, draws, t);
    HeadSearches(c, s, draws);
    VAgeRemembers(c, NextSearch(c, s, draws).k, p, s.scnt[p], NextPages(c, s));
    VSearchLoads(s.k, |c.sizes|, p, NextPages(c, s), draws, g);
  }

  lemma NextFollows(c: LS.Config, s: VSys, t: VSys, p: nat, g: nat)
    requires AllRecall(c, s) && Next(c, s, t) && p < |c.sizes| && ESSENTIAL_PAGES <= g && p !in t.dropped
    ensures RanksAt(c, s, p) && RanksAt(c, t, p) && p !in s.dropped
    ensures forall later: bool :: Follows(Look(s.k.tables[p], s.scnt[p], LoadTurn(c, s, t, p, g)), Look(t.k.tables[p], t.scnt[p], later), g)
  {
    var draws :| TurnIs(c, s, draws, t);
    TurnTables(c, s, draws, t);
    if p == s.ready[0] {
      OwnFollows(c, s, draws, t, g);
    } else {
      assert RanksAt(c, s, p);
    }
  }

  ghost function LookAt(c: LS.Config, run: seq<VSys>, h: nat, p: nat, g: nat): Look
    requires h < |run| && RanksAt(c, run[h], p)
  {
    Look(run[h].k.tables[p], run[h].scnt[p], h + 1 < |run| && LoadTurn(c, run[h], run[h + 1], p, g))
  }

  lemma RunFollows(c: LS.Config, run: seq<VSys>, h: nat, before: int, p: nat, g: nat)
    requires RunOf(c, run) && 0 <= before < h < |run| && before == h - 1 && p < |c.sizes| && ESSENTIAL_PAGES <= g && p !in run[h].dropped
    ensures RanksAt(c, run[before], p) && RanksAt(c, run[h], p) && p !in run[before].dropped
    ensures Follows(LookAt(c, run, before, p, g), LookAt(c, run, h, p, g), g)
  {
    RunRecalls(c, run, before);
    NextFollows(c, run[before], run[h], p, g);
  }

  lemma RunRanks(c: LS.Config, run: seq<VSys>, h: nat, p: nat)
    requires RunOf(c, run) && h < |run| && p < |c.sizes|
    ensures RanksAt(c, run[h], p)
  {
    RunRecalls(c, run, h);
  }

  lemma {:induction false} NotDroppedBefore(c: LS.Config, run: seq<VSys>, h: nat, j: nat, p: nat)
    requires RunOf(c, run) && h <= j < |run| && p < |c.sizes| && p !in run[j].dropped
    ensures p !in run[h].dropped
    decreases j
  {
    if h < j {
      RunFollows(c, run, j, j - 1, p, ESSENTIAL_PAGES);
      NotDroppedBefore(c, run, h, j - 1, p);
    }
  }

  lemma NothingAtFirst(c: LS.Config, run: seq<VSys>, p: nat, g: nat)
    requires RunOf(c, run) && p < |c.sizes| && ESSENTIAL_PAGES <= g
    ensures p < |run[0].k.tables| && g !in run[0].k.tables[p]
  {
    StartLoaded(c);
    assert LT.OnlyEssential(LT.LoadAll(FreshList(|c.sizes|), 0), p);
  }

  ghost predicate AllRank(c: LS.Config, run: seq<VSys>, p: nat) {
    forall h: nat | h < |run| :: RanksAt(c, run[h], p)
  }

  ghost function LooksOf(c: LS.Config, run: seq<VSys>, p: nat, g: nat): (looks: seq<Look>)
    requires AllRank(c, run, p)
    ensures |looks| == |run| && forall h: nat | h < |run| :: looks[h] == LookAt(c, run, h, p, g)
  {
    seq(|run|, (h: nat) requires h < |run| && RanksAt(c, run[h], p) => LookAt(c, run, h, p, g))
  }

  /** Page g of p has been resident since turn i, p's search number k, in which it was loaded. */
  ghost predicate ResidentSince(c: LS.Config, run: seq<VSys>, j: nat, p: nat, g: nat, i: nat, k: nat) {
    && i < j < |run| && LoadTurn(c, run[i], run[i + 1], p, g) && p < |run[i].scnt| && run[i].scnt[p] == k
    && forall h | i < h <= j :: p < |run[h].k.tables| && g in run[h].k.tables[p]
  }

  lemma LoadedSince(c: LS.Config, run: seq<VSys>, j: nat, p: nat, g: nat, k: nat) returns (i: nat)
    requires RunOf(c, run) && j < |run| && p < |c.sizes| && ESSENTIAL_PAGES <= g && p !in run[j].dropped
    requires RanksAt(c, run[j], p) && g in run[j].k.tables[p] && |run[j].k.tables[p][g].record| + k == run[j].scnt[p]
    ensures ResidentSince(c, run, j, p, g, i, k)
  {
    forall h: nat | h < |run|
      ensures RanksAt(c, run[h], p)
    {
      RunRanks(c, run, h, p);
    }
    var looks := LooksOf(c, run, p, g);
    NothingAtFirst(c, run, p, g);
    forall h: nat | 0 < h <= j
      ensures Follows(looks[h - 1], looks[h], g)
    {
      NotDroppedBefore(c, run, h, j, p);
      RunFollows(c, run, h, h - 1, p, g);
    }
    i := RecordSince(looks, j, g, k);
    LooksBack(c, run, looks, j, p, g, i, k);
  }

  lemma LooksBack(c: LS.Config, run: seq<VSys>, looks: seq<Look>, j: nat, p: nat, g: nat, i: nat, k: nat)
    requires AllRank(c, run, p) && looks == LooksOf(c, run, p, g) && Resident(looks, j, g, i, k)
    ensures ResidentSince(c, run, j, p, g, i, k)
  {
    forall h | i < h <= j
      ensures p < |run[h].k.tables| && g in run[h].k.tables[p]
    {
      assert g in looks[h].t && RanksAt(c, run[h], p);
    }
    assert RanksAt(c, run[i], p);
  }

  /** The record of a resident data page of a process that has not been dropped goes back to the search in
      which it was loaded, and says of each search since whether it touched the page. */
  lemma RecordsAreUses(c: LS.Config, run: seq<VSys>, j: nat, p: nat, g: nat) returns (i: nat)
    requires RunOf(c, run) && j < |run| && p < |c.sizes| && ESSENTIAL_PAGES <= g && p !in run[j].dropped
    ensures RanksAt(c, run[j], p)
    ensures g in run[j].k.tables[p] ==>
      var x, done := run[j].k.tables[p][g], run[j].scnt[p];
      && !x.ref && 1 <= |x.record| <= done
      && (forall h | 0 <= h < |x.record| :: x.record[h] <==> g in PagesFor(c.sizes[p], c.keys[p][done - 1 - h]))
      && ResidentSince(c, run, j, p, g, i, done - |x.record|)
  {
    RunRecalls(c, run, j);
    assert RanksAt(c, run[j], p) && Recalls(c, run[j], p);
    i := 0;
    if g in run[j].k.tables[p] {
      TellsAll(c, p, run[j].scnt[p], g, run[j].k.tables[p][g].record);
      i := LoadedSince(c, run, j, p, g, run[j].scnt[p] - |run[j].k.tables[p][g].record|);
    }
  }

  // ----- who is replaced, and who is dropped

  /** What the first m accesses of the next search come to. */
  function Midway(c: LS.Config, s: VSys, draws: seq<nat>, m: nat): Outcome
    requires CanSearch(c, s) && |draws| == |NextPages(c, s)| && m <= |draws|
  {
    VSearch(s.k, |c.sizes|, s.ready[0], NextPages(c, s)[..m], draws[..m])
  }

  /** In the middle of a search that has got through so far. */
  ghost predicate Searching(c: LS.Config, run: seq<VSys>, j: nat, draws: seq<nat>, m: nat) {
    && RunOf(c, run) && j < |run| && CanSearch(c, run[j])
    && |draws| == |NextPages(c, run[j])| && m < |draws| && Midway(c, run[j], draws, m).ok
  }

  /** What holds there of the process that searches. */
  ghost predicate Midst(c: LS.Config, p: nat, done: nat, k: Kernel) {
    && p < |c.sizes| == |c.keys| && done <= |c.keys[p]| && Intact(k, |c.sizes|) && Sized(k, p) && k.free != []
    && Remembers(c, p, done, k.tables[p])
  }

  lemma MidwayRecalls(c: LS.Config, run: seq<VSys>, j: nat, draws: seq<nat>, m: nat)
    requires Searching(c, run, j, draws, m)
    ensures Midst(c, run[j].ready[0], run[j].scnt[run[j].ready[0]], Midway(c, run[j], draws, m).k)
  {
    RunRecalls(c, run, j);
    MidwayIn(c, run[j], draws, m);
  }

  lemma MidwayIn(c: LS.Config, s: VSys, draws: seq<nat>, m: nat)
    requires AllRecall(c, s) && CanSearch(c, s) && |draws| == |NextPages(c, s)| && m <= |draws|
    ensures Midst(c, s.ready[0], s.scnt[s.ready[0]], Midway(c, s, draws, m).k)
  {
    var p, pages := s.ready[0], NextPages(c, s)[..m];
    assert RanksAt(c, s, p) && Recalls(c, s, p) && Somewhere(c.searches, s, p);
    ReadyCanSearch(c, s);
    VSearchKeeps(s.k, |c.sizes|, p, pages, draws[..m], Floor(c));
    VSearchRemembers(c, s.k, |c.sizes|, p, s.scnt[p], pages, draws[..m], []);
  }

  /** The search of p that is the j-th before its present one touched g. */
  predicate UsedBack(c: LS.Config, p: nat, done: nat, g: nat, j: nat)
    requires p < |c.sizes| == |c.keys| && j < done <= |c.keys[p]|
  {
    g in PagesFor(c.sizes[p], c.keys[p][done - 1 - j])
  }

  /** Each of the sixteen searches before, as far back as the page was loaded, touched it. */
  predicate AlwaysUsed(c: LS.Config, p: nat, done: nat, g: nat, since: nat)
    requires p < |c.sizes| == |c.keys| && since <= done <= |c.keys[p]|
  {
    forall j: nat | j < since && j < WIDTH :: UsedBack(c, p, done, g, j)
  }

  ghost predicate AllUsed(c: LS.Config, p: nat, done: nat, t: map<nat, Slot>)
    requires p < |c.sizes| == |c.keys| && done <= |c.keys[p]|
  {
    forall g | DataPage(t, g) :: |t[g].record| <= done && AlwaysUsed(c, p, done, g, |t[g].record|)
  }

  lemma PageAlwaysUsed(c: LS.Config, p: nat, done: nat, g: nat, record: seq<bool>)
    requires p < |c.sizes| == |c.keys| && done <= |c.keys[p]| && TellsUses(c, p, done, g, record)
    ensures AlwaysUsed(c, p, done, g, |record|) <==> !exists i :: 0 <= i < |record| && i < WIDTH && !record[i]
  {
    forall j: nat | j < |record|
      ensures record[j] <==> UsedBack(c, p, done, g, j)
    {
      assert record[j] <==> Uses(c, p, done - 1 - j, g);
    }
    if AlwaysUsed(c, p, done, g, |record|) {
      assert forall i: nat | i < |record| && i < WIDTH :: UsedBack(c, p, done, g, i);
    }
  }

  lemma DropsWhen(c: LS.Config, p: nat, done: nat, k: Kernel, page: nat, draw: nat)
    requires Midst(c, p, done, k)
    ensures !VAccess(k, p, page, draw).ok <==> page !in k.tables[p] && |k.free| <= NFFMIN && AllUsed(c, p, done, k.tables[p])
  {
    DroppedWhen(k, p, page, draw);
    var t := k.tables[p];
    forall g | DataPage(t, g)
      ensures |t[g].record| <= done
      ensures AlwaysUsed(c, p, done, g, |t[g].record|) <==> !exists i :: 0 <= i < |t[g].record| && i < WIDTH && !t[g].record[i]
    {
      assert TellsUses(c, p, done, g, t[g].record);
      PageAlwaysUsed(c, p, done, g, t[g].record);
    }
  }

  /** Wherever in a run an access drops its process, it misses its page at the floor and every resident data
      page was used in each of the sixteen searches before, as far back as it was loaded; and wherever that is
      so, it drops it. */
  lemma DroppedByUses(c: LS.Config, run: seq<VSys>, j: nat, draws: seq<nat>, m: nat)
    requires Searching(c, run, j, draws, m)
    ensures var s := run[j]; var p, k, page := s.ready[0], Midway(c, s, draws, m).k, NextPages(c, s)[m];
      && Midst(c, p, s.scnt[p], k)
      && (!VAccess(k, p, page, draws[m]).ok <==> page !in k.tables[p] && |k.free| <= NFFMIN && AllUsed(c, p, s.scnt[p], k.tables[p]))
  {
    MidwayRecalls(c, run, j, draws, m);
    var s := run[j];
    DropsWhen(c, s.ready[0], s.scnt[s.ready[0]], Midway(c, s, draws, m).k, NextPages(c, s)[m], draws[m]);
  }

  lemma VictimInMidst(c: LS.Config, p: nat, done: nat, k: Kernel, page: nat, draw: nat, g: nat, h: nat)
    requires Midst(c, p, done, k) && VAccess(k, p, page, draw).ok && DataPage(k.tables[p], h)
    requires g in k.tables[p] && g !in VAccess(k, p, page, draw).k.tables[p]
    ensures DataPage(k.tables[p], g) && |k.tables[p][g].record| <= done && |k.tables[p][h].record| <= done
    ensures LessUsedPage(c, p, done, k.tables[p], g, h)
  {
    SameButForOrder(k, p, page, draw);
    VictimByUses(c, k, p, done, page, draw, g, h);
    assert TellsUses(c, p, done, g, k.tables[p][g].record) && TellsUses(c, p, done, h, k.tables[p][h].record);
  }

  /** And wherever it takes a page away, no other resident data page was used less by them. */
  lemma VictimIsUsedLeast(c: LS.Config, run: seq<VSys>, j: nat, draws: seq<nat>, m: nat, g: nat, h: nat)
    requires Searching(c, run, j, draws, m)
    requires var s := run[j]; var p, k, page := s.ready[0], Midway(c, s, draws, m).k, NextPages(c, s)[m];
      && Midst(c, p, s.scnt[p], k) && VAccess(k, p, page, draws[m]).ok && DataPage(k.tables[p], h)
      && g in k.tables[p] && g !in VAccess(k, p, page, draws[m]).k.tables[p]
    ensures var s := run[j]; var p, k := s.ready[0], Midway(c, s, draws, m).k;
      && DataPage(k.tables[p], g) && |k.tables[p][g].record| <= s.scnt[p] && |k.tables[p][h].record| <= s.scnt[p]
      && LessUsedPage(c, p, s.scnt[p], k.tables[p], g, h)
  {
    var s := run[j];
    VictimInMidst(c, s.ready[0], s.scnt[s.ready[0]], Midway(c, s, draws, m).k, NextPages(c, s)[m], draws[m], g, h);
  }
}
