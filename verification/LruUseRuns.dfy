/** Over whole runs: the record of a resident page is that of the searches of its process since the page was
    loaded, and the page replaced is the one they used least. */
module LruUseRuns {
  import opened Options
  import opened SearchTrace
  import opened LruSpec
  import opened LruRuns
  import opened LruSystem
  import opened LruTheorems
  import opened LruUses

  /** Between two turns: every record tells the uses, and nothing is marked. */
  predicate Recalls(c: Config, s: Sys, p: nat)
    requires ConfigOk(c) && p < |c.sizes| == |s.scnt| == |s.k.tables| && s.scnt[p] <= c.searches
  {
    Remembers(c, p, s.scnt[p], s.k.tables[p]) && Marks(s.k.tables[p], []) && Written(s.k.tables[p])
  }

  ghost predicate AllRecall(c: Config, s: Sys) {
    Inv(c, s) && forall p: nat | p < |c.sizes| :: RanksAt(c, s, p) && Recalls(c, s, p)
  }

  predicate RanksAt(c: Config, s: Sys, p: nat) {
    ConfigOk(c) && p < |c.sizes| == |s.scnt| == |s.k.tables| && s.scnt[p] <= c.searches
  }

  lemma InitRecalls(c: Config)
    requires ConfigOk(c)
    ensures AllRecall(c, Init(c))
  {
    InitInv(c);
    forall p: nat | p < |c.sizes|
      ensures RanksAt(c, Init(c), p) && Recalls(c, Init(c), p)
    {
      assert OnlyEssential(Init(c).k, p);
    }
  }

  /** What the search of a turn leaves. */
  lemma SearchRecalls(c: Config, s: Sys, draws: seq<nat>)
    requires AllRecall(c, s) && s.ready != [] && |draws| == |NextPages(c, s)|
    requires Search(s.k, |c.sizes|, s.ready[0], NextPages(c, s), draws).Some?
    ensures var p, k := s.ready[0], Search(s.k, |c.sizes|, s.ready[0], NextPages(c, s), draws).value;
      && p < |c.sizes| == |k.tables| && s.scnt[p] < c.searches && RanksAt(c, s, p)
      && Remembers(c, p, s.scnt[p], k.tables[p]) && Marks(k.tables[p], NextPages(c, s))
      && NextPages(c, s) == PagesFor(c.sizes[p], c.keys[p][s.scnt[p]])
  {
    var p := s.ready[0];
    assert Recalls(c, s, p);
    SearchRemembers(c, s.k, |c.sizes|, p, s.scnt[p], NextPages(c, s), draws, []);
    assert [] + NextPages(c, s) == NextPages(c, s);
  }

  /** The tables after a turn: that of its process is aged, or empty after the last search. */
  lemma TurnTables(c: Config, s: Sys, draws: seq<nat>, t: Sys)
    requires Inv(c, s) && s.ready != [] && |draws| == |NextPages(c, s)| && Turn(c, s, draws) == Some(t)
    ensures var p, k := s.ready[0], Search(s.k, |c.sizes|, s.ready[0], NextPages(c, s), draws);
      && k.Some? && p < |c.sizes| == |t.k.tables| == |s.k.tables| == |k.value.tables|
      && |t.scnt| == |s.scnt| == |c.sizes| && t.scnt == s.scnt[p := s.scnt[p] + 1]
      && (forall o | 0 <= o < |c.sizes| && o != p :: t.k.tables[o] == s.k.tables[o])
      && (t.k.tables[p] == Age(k.value, p).tables[p] || t.k.tables[p] == map[])
  {
    var k := Search(s.k, |c.sizes|, s.ready[0], NextPages(c, s), draws).value;
    SearchOutcome(c, s, draws);
    SettledTables(c, s, k);
  }

  lemma SettledTables(c: Config, s: Sys, k: Kernel)
    requires Inv(c, s) && s.ready != [] && LruRuns.Sound(k, |c.sizes|) && OnlyDataMoved(s.k, k, |c.sizes|, s.ready[0])
    ensures var p, t := s.ready[0], Settle(c, s, k);
      && |t.k.tables| == |c.sizes| && t.scnt == s.scnt[p := s.scnt[p] + 1]
      && (forall o | 0 <= o < |c.sizes| && o != p :: t.k.tables[o] == s.k.tables[o])
      && (t.k.tables[p] == Age(k, p).tables[p] || t.k.tables[p] == map[])
  {
    SettledKernel(c, s, k);
  }

  lemma OwnRecalls(c: Config, s: Sys, draws: seq<nat>, t: Sys)
    requires AllRecall(c, s) && s.ready != [] && |draws| == |NextPages(c, s)| && Turn(c, s, draws) == Some(t)
    ensures RanksAt(c, t, s.ready[0]) && Recalls(c, t, s.ready[0])
  {
    var p := s.ready[0];
    TurnTables(c, s, draws, t);
    SearchRecalls(c, s, draws);
    AgeRemembers(c, Search(s.k, |c.sizes|, p, NextPages(c, s), draws).value, p, s.scnt[p], NextPages(c, s));
  }

  lemma OthersRecall(c: Config, s: Sys, draws: seq<nat>, t: Sys, o: nat)
    requires AllRecall(c, s) && s.ready != [] && |draws| == |NextPages(c, s)| && Turn(c, s, draws) == Some(t)
    requires o < |c.sizes| && o != s.ready[0]
    ensures RanksAt(c, t, o) && Recalls(c, t, o)
  {
    TurnTables(c, s, draws, t);
    assert RanksAt(c, s, o) && Recalls(c, s, o);
  }

  lemma NextRecalls(c: Config, s: Sys, t: Sys)
    requires AllRecall(c, s) && Next(c, s, t)
    ensures AllRecall(c, t)
  {
    var draws := NextInv(c, s, t);
    OwnRecalls(c, s, draws, t);
    forall o: nat | o < |c.sizes|
      ensures RanksAt(c, t, o) && Recalls(c, t, o)
    {
      if o != s.ready[0] {
        OthersRecall(c, s, draws, t, o);
      }
    }
  }

  lemma {:induction false} RunRecalls(c: Config, run: seq<Sys>, j: nat)
    requires RunOf(c, run) && j < |run|
    ensures AllRecall(c, run[j])
  {
    if j == 0 {
      InitRecalls(c);
    } else {
      RunRecalls(c, run, j - 1);
      NextRecalls(c, run[j - 1], run[j]);
    }
  }

  // ----- since when

  /** In this turn, p's, page g was loaded. */
  ghost predicate LoadTurn(c: Config, s: Sys, t: Sys, p: nat, g: nat) {
    && SysShape(c, s) && s.ready != [] && s.ready[0] == p
    && exists draws: seq<nat> :: |draws| == |NextPages(c, s)| && Turn(c, s, draws) == Some(t)
                                 && LoadedIn(s.k, |c.sizes|, p, NextPages(c, s), draws, g)
  }

  ghost function LookAt(c: Config, run: seq<Sys>, h: nat, p: nat, g: nat): Look
    requires h < |run| && RanksAt(c, run[h], p)
  {
    Look(run[h].k.tables[p], run[h].scnt[p], h + 1 < |run| && LoadTurn(c, run[h], run[h + 1], p, g))
  }

  lemma OwnFollows(c: Config, s: Sys, draws: seq<nat>, t: Sys, g: nat)
    requires AllRecall(c, s) && s.ready != [] && |draws| == |NextPages(c, s)| && Turn(c, s, draws) == Some(t) && ESSENTIAL_PAGES <= g
    ensures RanksAt(c, s, s.ready[0]) && RanksAt(c, t, s.ready[0])
    ensures var p := s.ready[0];
      forall later: bool :: Follows(Look(s.k.tables[p], s.scnt[p], LoadTurn(c, s, t, p, g)), Look(t.k.tables[p], t.scnt[p], later), g)
  {
    var p := s.ready[0];
    OwnRecalls(c, s, draws, t);
    TurnTables(c, s, draws, t);
    SearchRecalls(c, s, draws);
    AgeRemembers(c, Search(s.k, |c.sizes|, p, NextPages(c, s), draws).value, p, s.scnt[p], NextPages(c, s));
    SearchLoads(s.k, |c.sizes|, p, NextPages(c, s), draws, g);
  }

  lemma NextFollows(c: Config, s: Sys, t: Sys, p: nat, g: nat)
    requires AllRecall(c, s) && Next(c, s, t) && p < |c.sizes| && ESSENTIAL_PAGES <= g
    ensures RanksAt(c, s, p) && RanksAt(c, t, p)
    ensures forall later: bool :: Follows(Look(s.k.tables[p], s.scnt[p], LoadTurn(c, s, t, p, g)), Look(t.k.tables[p], t.scnt[p], later), g)
  {
    var draws := NextInv(c, s, t);
    if p == s.ready[0] {
      OwnFollows(c, s, draws, t, g);
    } else {
      TurnTables(c, s, draws, t);
      assert RanksAt(c, s, p);
    }
  }

  lemma RunFollows(c: Config, run: seq<Sys>, h: nat, before: int, p: nat, g: nat)
    requires RunOf(c, run) && 0 <= before < h < |run| && before == h - 1 && p < |c.sizes| && ESSENTIAL_PAGES <= g
    ensures RanksAt(c, run[before], p) && RanksAt(c, run[h], p)
    ensures Follows(LookAt(c, run, before, p, g), LookAt(c, run, h, p, g), g)
  {
    RunRecalls(c, run, before);
    NextFollows(c, run[before], run[h], p, g);
  }

  lemma RunRanks(c: Config, run: seq<Sys>, h: nat, p: nat)
    requires RunOf(c, run) && h < |run| && p < |c.sizes|
    ensures RanksAt(c, run[h], p)
  {
    RunRecalls(c, run, h);
  }

  lemma NothingAtFirst(c: Config, run: seq<Sys>, p: nat, g: nat)
    requires RunOf(c, run) && p < |c.sizes| && ESSENTIAL_PAGES <= g
    ensures p < |run[0].k.tables| && g !in run[0].k.tables[p]
  {
    InitInv(c);
    assert OnlyEssential(Init(c).k, p);
  }

  ghost predicate AllRank(c: Config, run: seq<Sys>, p: nat) {
    forall h: nat | h < |run| :: RanksAt(c, run[h], p)
  }

  ghost function LooksOf(c: Config, run: seq<Sys>, p: nat, g: nat): (looks: seq<Look>)
    requires AllRank(c, run, p)
    ensures |looks| == |run| && forall h: nat | h < |run| :: looks[h] == LookAt(c, run, h, p, g)
  {
    seq(|run|, (h: nat) requires h < |run| && RanksAt(c, run[h], p) => LookAt(c, run, h, p, g))
  }

  /** Page g of p has been resident since turn i, p's search number k, in which it was loaded. */
  ghost predicate ResidentSince(c: Config, run: seq<Sys>, j: nat, p: nat, g: nat, i: nat, k: nat) {
    && i < j < |run| && LoadTurn(c, run[i], run[i + 1], p, g) && p < |run[i].scnt| && run[i].scnt[p] == k
    && forall h | i < h <= j :: p < |run[h].k.tables| && g in run[h].k.tables[p]
  }

  lemma LoadedSince(c: Config, run: seq<Sys>, j: nat, p: nat, g: nat, k: nat) returns (i: nat)
    requires RunOf(c, run) && j < |run| && p < |c.sizes| && ESSENTIAL_PAGES <= g
    requires RanksAt(c, run[j], p) && g in run[j].k.tables[p] && |run[j].k.tables[p][g].record| + k == run[j].scnt[p]
    ensures ResidentSince(c, run, j, p, g, i, k)
  {
    forall h: nat | h < |run|
      ensures RanksAt(c, run[h], p)
    {
      RunRanks(c, run, h, p);
    }
    var looks := LooksOf(c, run, p, g);
    NothingAtFirst(c, run, p, g);
    forall h: nat | 0 < h <= j
      ensures Follows(looks[h - 1], looks[h], g)
    {
      RunFollows(c, run, h, h - 1, p, g);
    }
    i := RecordSince(looks, j, g, k);
    LooksBack(c, run, looks, j, p, g, i, k);
  }

  lemma LooksBack(c: Config, run: seq<Sys>, looks: seq<Look>, j: nat, p: nat, g: nat, i: nat, k: nat)
    requires AllRank(c, run, p) && looks == LooksOf(c, run, p, g) && Resident(looks, j, g, i, k)
    ensures ResidentSince(c, run, j, p, g, i, k)
  {
    forall h | i < h <= j
      ensures p < |run[h].k.tables| && g in run[h].k.tables[p]
    {
      assert g in looks[h].t && RanksAt(c, run[h], p);
    }
    assert RanksAt(c, run[i], p);
  }

  // ----- what a record says

  /** The record of a resident data page between two turns goes back, search by search of its process, to the
      one in which the page was loaded, and says of each whether it touched the page. */
  lemma RecordsAreUses(c: Config, run: seq<Sys>, j: nat, p: nat, g: nat) returns (i: nat)
    requires RunOf(c, run) && j < |run| && p < |c.sizes| && ESSENTIAL_PAGES <= g
    ensures RanksAt(c, run[j], p)
    ensures g in run[j].k.tables[p] ==>
      var x, done := run[j].k.tables[p][g], run[j].scnt[p];
      && !x.ref && 1 <= |x.record| <= done
      && (forall h | 0 <= h < |x.record| :: x.record[h] <==> g in PagesFor(c.sizes[p], c.keys[p][done - 1 - h]))
      && ResidentSince(c, run, j, p, g, i, done - |x.record|)
  {
    RunRecalls(c, run, j);
    assert RanksAt(c, run[j], p) && Recalls(c, run[j], p);
    i := 0;
    if g in run[j].k.tables[p] {
      TellsAll(c, p, run[j].scnt[p], g, run[j].k.tables[p][g].record);
      i := LoadedSince(c, run, j, p, g, run[j].scnt[p] - |run[j].k.tables[p][g].record|);
    }
  }

  /** The kernel after the first m accesses of the next search. */
  function Midway(c: Config, s: Sys, draws: seq<nat>, m: nat): Option<Kernel>
    requires SysShape(c, s) && s.ready != [] && |draws| == |NextPages(c, s)| && m <= |draws|
  {
    Search(s.k, |c.sizes|, s.ready[0], NextPages(c, s)[..m], draws[..m])
  }

  lemma MidwayRecalls(c: Config, s: Sys, draws: seq<nat>, m: nat)
    requires AllRecall(c, s) && s.ready != [] && |draws| == |NextPages(c, s)| && m <= |draws| && Midway(c, s, draws, m).Some?
    ensures var p, k := s.ready[0], Midway(c, s, draws, m).value;
      && RanksAt(c, s, p) && Sound(k, |c.sizes|) && Remembers(c, p, s.scnt[p], k.tables[p]) && Marks(k.tables[p], NextPages(c, s)[..m])
  {
    var p, pages := s.ready[0], NextPages(c, s)[..m];
    assert Recalls(c, s, p);
    TraceFacts(c, p, s.scnt[p]);
    SearchSound(s.k, |c.sizes|, p, pages, draws[..m]);
    SearchRemembers(c, s.k, |c.sizes|, p, s.scnt[p], pages, draws[..m], []);
    assert [] + pages == pages;
  }

  /** In a search, a data page has the reference bit exactly if the search has touched it. */
  lemma ReferenceBits(c: Config, run: seq<Sys>, j: nat, draws: seq<nat>, m: nat, g: nat)
    requires RunOf(c, run) && j < |run| && SysShape(c, run[j]) && run[j].ready != []
    requires |draws| == |NextPages(c, run[j])| && m <= |draws| && Midway(c, run[j], draws, m).Some?
    ensures var s := run[j]; var p, k := s.ready[0], Midway(c, s, draws, m).value;
      && |k.tables| == |c.sizes| && |c.keys[p]| == c.searches
      && (DataPage(k.tables[p], g) ==> (k.tables[p][g].ref <==> g in PagesFor(c.sizes[p], c.keys[p][s.scnt[p]])[..m]))
  {
    RunRecalls(c, run, j);
    MidwayRecalls(c, run[j], draws, m);
  }

  /** Wherever in a run an access takes page g away from its process, no other resident data page h of it was
      used less by the sixteen searches before this one, as far back as each was loaded. */
  lemma VictimIsUsedLeast(c: Config, run: seq<Sys>, j: nat, draws: seq<nat>, m: nat, g: nat, h: nat)
    requires RunOf(c, run) && j < |run| && SysShape(c, run[j]) && run[j].ready != []
    requires |draws| == |NextPages(c, run[j])| && m < |draws| && Midway(c, run[j], draws, m).Some?
    requires var s := run[j]; var p, k := s.ready[0], Midway(c, s, draws, m).value;
      && Sized(k, p) && Access(k, p, NextPages(c, s)[m], draws[m]).Some? && DataPage(k.tables[p], h)
      && g in k.tables[p] && g !in Access(k, p, NextPages(c, s)[m], draws[m]).value.tables[p]
    ensures var s := run[j]; var p, k := s.ready[0], Midway(c, s, draws, m).value;
      && DataPage(k.tables[p], g) && s.scnt[p] <= |c.keys[p]|
      && |k.tables[p][g].record| <= s.scnt[p] && |k.tables[p][h].record| <= s.scnt[p]
      && LessUsedPage(c, p, s.scnt[p], k.tables[p], g, h)
  {
    RunRecalls(c, run, j);
    MidwayRecalls(c, run[j], draws, m);
    var s := run[j];
    VictimByUses(c, Midway(c, s, draws, m).value, s.ready[0], s.scnt[s.ready[0]], NextPages(c, s)[m], draws[m], g, h);
  }
}
