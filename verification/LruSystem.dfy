/** The simulation turn by turn: the process at the head of the ready list makes a search, ages its
    pages, and goes to the back of the list or, after its last search, gives everything back. */
module LruSystem {
  import opened Options
  import opened SearchTrace
  import opened LruSpec
  import opened LruRuns
  import PR = PagingRuns

  type Config = PR.Config

  /** What the program relies on: searches, arrays that fit the page table, room for essential pages. */
  predicate ConfigOk(c: Config) {
    PR.ConfigOk(c)
  }

  datatype Sys = Sys(k: Kernel, scnt: seq<nat>, ready: seq<nat>)

  predicate SysShape(c: Config, s: Sys) {
    && ConfigOk(c) && |s.scnt| == |s.k.tables| == |s.k.stats| == |c.sizes|
    && (forall i | 0 <= i < |s.ready| :: s.ready[i] < |c.sizes| && s.scnt[s.ready[i]] < c.searches)
    && (forall a, b | 0 <= a < b < |s.ready| :: s.ready[a] != s.ready[b])
  }

  /** The pages the next search touches. */
  function NextPages(c: Config, s: Sys): seq<nat>
    requires SysShape(c, s) && s.ready != []
  {
    PR.Trace(c, s.ready[0], s.scnt[s.ready[0]])
  }

  /** What follows a search of p that went through. */
  function Settle(c: Config, s: Sys, k: Kernel): Sys
    requires SysShape(c, s) && s.ready != [] && |k.tables| == |c.sizes|
  {
    var p := s.ready[0];
    var aged := Age(k, p);
    var scnt := s.scnt[p := s.scnt[p] + 1];
    if scnt[p] < c.searches then Sys(aged, scnt, s.ready[1..] + [p])
    else Sys(Release(aged, p), scnt, s.ready[1..])
  }

  function Turn(c: Config, s: Sys, draws: seq<nat>): Option<Sys>
    requires SysShape(c, s) && s.ready != [] && |draws| == |NextPages(c, s)|
  {
    match Search(s.k, |c.sizes|, s.ready[0], NextPages(c, s), draws)
    case None => None
    case Some(k) => if |k.tables| == |c.sizes| then Some(Settle(c, s, k)) else None
  }

  // ----- the invariant

  predicate HasEssential(k: Kernel, p: nat)
    requires p < |k.tables|
  {
    forall g | 0 <= g < ESSENTIAL_PAGES :: g in k.tables[p]
  }

  /** What is left for data pages when everybody has the essential ones. */
  function Spare(c: Config): int {
    NFRAMES - |c.sizes| * ESSENTIAL_PAGES
  }

  /** A process is on the ready list with its essential pages, or has done all its searches and has nothing. */
  ghost predicate Ranked(c: Config, s: Sys, p: nat)
    requires SysShape(c, s) && p < |c.sizes|
  {
    && (p in s.ready <==> s.scnt[p] < c.searches)
    && s.scnt[p] <= c.searches
    && (if p in s.ready then HasEssential(s.k, p) else s.k.tables[p] == map[])
    && (p in s.ready && s.scnt[p] > 0 && c.sizes[p] >= 2 ==> HasData(s.k, p))
  }

  /** The first d processes have made their first search, the others wait in front of the list in order. */
  predicate FirstRound(c: Config, s: Sys, d: nat)
    requires SysShape(c, s)
  {
    && d <= |c.sizes|
    && (forall p | 0 <= p < |c.sizes| :: s.scnt[p] == 0 <==> d <= p)
    && |c.sizes| - d <= |s.ready| && (forall i | 0 <= i < |c.sizes| - d :: s.ready[i] == d + i)
    && (d < |c.sizes| ==> |s.k.free| >= Spare(c) - 13 * d)
  }

  ghost predicate Inv(c: Config, s: Sys) {
    && SysShape(c, s)
    && Sound(s.k, |c.sizes|)
    && (forall p: nat | p < |c.sizes| :: Ranked(c, s, p))
    && |s.k.free| >= PR.Min(NFFMIN, Spare(c))
    && exists d: nat :: FirstRound(c, s, d)
  }

  lemma TraceFacts(c: Config, p: nat, i: nat)
    requires ConfigOk(c) && p < |c.sizes| && i < c.searches
    ensures DataTrace(PR.Trace(c, p, i))
    ensures |Distinct(PR.Trace(c, p, i))| <= 13
    ensures PR.Trace(c, p, i) != [] <==> c.sizes[p] >= 2
  {
    if c.sizes[p] == 0 {
      assert Distinct(PR.Trace(c, p, i)) == {};
    } else {
      PagesInTable(0, c.sizes[p] - 1, c.keys[p][i]);
      ThirteenPages(c.sizes[p], c.keys[p][i]);
    }
  }

  /** What a search that goes through does to the kernel, for the process at the head. */
  lemma SearchOutcome(c: Config, s: Sys, draws: seq<nat>)
    requires Inv(c, s) && s.ready != [] && |draws| == |NextPages(c, s)|
    requires Search(s.k, |c.sizes|, s.ready[0], NextPages(c, s), draws).Some?
    ensures var k := Search(s.k, |c.sizes|, s.ready[0], NextPages(c, s), draws).value;
            && Sound(k, |c.sizes|) && OnlyDataMoved(s.k, k, |c.sizes|, s.ready[0])
            && |k.free| >= PR.Min(NFFMIN, Spare(c)) && |k.free| >= |s.k.free| - 13
            && (c.sizes[s.ready[0]] >= 2 ==> HasData(k, s.ready[0]))
  {
    var n, p, pages := |c.sizes|, s.ready[0], NextPages(c, s);
    assert Ranked(c, s, p);
    TraceFacts(c, p, s.scnt[p]);
    SearchSound(s.k, n, p, pages, draws);
    SearchFloor(s.k, n, p, pages, draws);
    SearchDrop(s.k, n, p, pages, draws);
    MissingFew(s.k, p, pages);
    if c.sizes[p] >= 2 {
      SearchLeavesData(s.k, n, p, pages, draws);
    }
  }

  lemma MissingFew(k: Kernel, p: nat, pages: seq<nat>)
    requires p < |k.tables|
    ensures |Missing(k, p, pages)| <= |Distinct(pages)|
  {
    SubsetSize(Missing(k, p, pages), Distinct(pages));
  }

  /** A search that touched a page and went through leaves a data page resident. */
  lemma {:induction false} SearchLeavesData(k: Kernel, n: nat, p: nat, pages: seq<nat>, draws: seq<nat>)
    requires Sound(k, n) && p < n && |draws| == |pages| && DataTrace(pages)
    requires (pages != [] || HasData(k, p)) && Search(k, n, p, pages, draws).Some?
    ensures |Search(k, n, p, pages, draws).value.tables| == n && HasData(Search(k, n, p, pages, draws).value, p)
    decreases |pages|
  {
    if pages != [] {
      var k1 := Access(k, p, pages[0], draws[0]).value;
      AccessSound(k, n, p, pages[0], draws[0]);
      AccessTables(k, n, p, pages[0], draws[0]);
      assert DataPage(k1.tables[p], pages[0]);
      SearchLeavesData(k1, n, p, pages[1..], draws[1..]);
    }
  }

  lemma AgeTables(k: Kernel, n: nat, p: nat)
    requires |k.tables| == n && p < n
    ensures var t := Age(k, p);
            && |t.tables| == n && t.free == k.free && t.tables[p].Keys == k.tables[p].Keys
            && (forall o | 0 <= o < n && o != p :: t.tables[o] == k.tables[o])
            && (HasData(k, p) ==> HasData(t, p))
            && (forall g | 0 <= g < ESSENTIAL_PAGES && g in k.tables[p] :: t.tables[p][g] == k.tables[p][g])
  {
    var t := Age(k, p);
    if HasData(k, p) {
      var g :| DataPage(k.tables[p], g);
      assert DataPage(t.tables[p], g);
    }
  }

  /** The kernel after the turn of p: sound, p's table aged or emptied, the others' untouched, the pool no smaller. */
  lemma SettledKernel(c: Config, s: Sys, k: Kernel)
    requires Inv(c, s) && s.ready != [] && Sound(k, |c.sizes|) && OnlyDataMoved(s.k, k, |c.sizes|, s.ready[0])
    ensures var t := Settle(c, s, k); var p := s.ready[0];
            && Sound(t.k, |c.sizes|) && |t.k.free| >= |k.free| && |t.k.tables| == |c.sizes|
            && (forall o | 0 <= o < |c.sizes| && o != p :: t.k.tables[o] == s.k.tables[o])
            && (if t.scnt[p] < c.searches then
                  HasEssential(t.k, p) && (HasData(k, p) ==> HasData(t.k, p))
                  && (forall g | 0 <= g < ESSENTIAL_PAGES :: t.k.tables[p][g] == s.k.tables[p][g])
                else t.k.tables[p] == map[])
  {
    var p, n := s.ready[0], |c.sizes|;
    assert Ranked(c, s, p);
    AgeKeeps(k, n, p);
    AgeTables(k, n, p);
    var aged := Age(k, p);
    ReleaseFromKeeps(aged, n, p, 0);
    ReleaseFromTables(aged, p, 0);
  }

  /** The ready list after the turn of p: the others in order, and p at the back if it is not done. */
  lemma SettledQueue(c: Config, s: Sys, k: Kernel)
    requires Inv(c, s) && s.ready != [] && |k.tables| == |k.stats| == |c.sizes|
    ensures var t := Settle(c, s, k); var p := s.ready[0];
            && SysShape(c, t)
            && (forall q | q in t.ready :: q in s.ready)
            && (forall q | q in s.ready && q != p :: q in t.ready)
            && (p in t.ready <==> s.scnt[p] + 1 < c.searches)
  {
    var t, p := Settle(c, s, k), s.ready[0];
    var rest := s.ready[1..];
    assert forall i | 0 <= i < |rest| :: rest[i] == s.ready[i + 1] && s.ready[i + 1] != p;
    assert Age(k, p).stats == k.stats;
    ReleaseFromStats(Age(k, p), p, 0);
    assert s.ready == [p] + rest;
  }

  lemma {:induction false} ReleaseFromStats(k: Kernel, p: nat, page: nat)
    requires p < |k.tables| && page <= PAGE_TABLE_SIZE
    ensures ReleaseFrom(k, p, page).stats == k.stats
    decreases PAGE_TABLE_SIZE - page
  {
    if page < PAGE_TABLE_SIZE {
      ReleaseFromStats(if page in k.tables[p] then ReleaseOne(k, p, page) else k, p, page + 1);
    }
  }

  lemma SettledRanks(c: Config, s: Sys, k: Kernel)
    requires Inv(c, s) && s.ready != [] && Sound(k, |c.sizes|) && OnlyDataMoved(s.k, k, |c.sizes|, s.ready[0])
    requires c.sizes[s.ready[0]] >= 2 ==> HasData(k, s.ready[0])
    ensures var t := Settle(c, s, k); SysShape(c, t) && forall p: nat | p < |c.sizes| :: Ranked(c, t, p)
  {
    var t := Settle(c, s, k);
    SettledKernel(c, s, k);
    SettledQueue(c, s, k);
    forall q: nat | q < |c.sizes|
      ensures Ranked(c, t, q)
    {
      assert Ranked(c, s, q);
    }
  }

  lemma SettledRound(c: Config, s: Sys, k: Kernel, d: nat) returns (e: nat)
    requires Inv(c, s) && s.ready != [] && FirstRound(c, s, d)
    requires Sound(k, |c.sizes|) && OnlyDataMoved(s.k, k, |c.sizes|, s.ready[0])
    requires |k.free| >= |s.k.free| - 13
    requires SysShape(c, Settle(c, s, k))
    ensures FirstRound(c, Settle(c, s, k), e)
    ensures e == if d < |c.sizes| then d + 1 else d
  {
    SettledKernel(c, s, k);
    var t, p := Settle(c, s, k), s.ready[0];
    e := if d < |c.sizes| then d + 1 else d;
    if d < |c.sizes| {
      assert p == d + 0;
      forall i | 0 <= i < |c.sizes| - e
        ensures t.ready[i] == e + i
      {
        assert s.ready[i + 1] == d + (i + 1) && t.ready[i] == s.ready[1..][i];
      }
    }
  }

  /** A turn that does not fail keeps the invariant. */
  lemma TurnInv(c: Config, s: Sys, draws: seq<nat>)
    requires Inv(c, s) && s.ready != [] && |draws| == |NextPages(c, s)| && Turn(c, s, draws).Some?
    ensures Inv(c, Turn(c, s, draws).value)
  {
    var k := Search(s.k, |c.sizes|, s.ready[0], NextPages(c, s), draws).value;
    SearchOutcome(c, s, draws);
    SettledKernel(c, s, k);
    SettledRanks(c, s, k);
    var d: nat :| FirstRound(c, s, d);
    var e := SettledRound(c, s, k, d);
  }

  /** With at most 491 processes the victim search always finds a page: no turn fails. */
  lemma TurnSucceeds(c: Config, s: Sys, draws: seq<nat>)
    requires Inv(c, s) && s.ready != [] && |draws| == |NextPages(c, s)|
    requires |c.sizes| <= 491
    ensures Turn(c, s, draws).Some?
  {
    var n, p := |c.sizes|, s.ready[0];
    assert Ranked(c, s, p);
    TraceFacts(c, p, s.scnt[p]);
    if NextPages(c, s) != [] {
      if s.scnt[p] == 0 {
        var d: nat :| FirstRound(c, s, d);
        assert d <= p && d < n;
      }
      SearchGoesThrough(s.k, n, p, NextPages(c, s), draws);
    }
  }
}
