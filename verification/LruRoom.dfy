/** Exactly when the page-replacement simulator never lacks a victim: a matter of sizes and first searches. */
module LruRoom {
  import opened Options
  import opened SearchTrace
  import opened LruSpec
  import opened LruRuns
  import opened LruSystem
  import opened LruTheorems
  import opened Pigeonhole
  import PR = PagingRuns

  // ----- the frames a search takes

  /** What is left of a pool when so many frames are wanted: it is not taken below the floor. */
  function Lowered(free: int, wanted: int): int {
    if free <= NFFMIN then free else if free - wanted >= NFFMIN then free - wanted else NFFMIN
  }

  /** A search takes a frame for each distinct page it misses, until the pool is at the floor. */
  lemma {:induction false} SearchTakes(k: Kernel, n: nat, p: nat, pages: seq<nat>, draws: seq<nat>)
    requires |k.tables| == n && p < n && |draws| == |pages| && Search(k, n, p, pages, draws).Some?
    ensures |Search(k, n, p, pages, draws).value.free| == Lowered(|k.free|, |Missing(k, p, pages)|)
    decreases |pages|
  {
    if |k.free| <= NFFMIN {
      SearchFloor(k, n, p, pages, draws);
    } else if pages == [] {
      assert Missing(k, p, pages) == {};
    } else {
      var k1 := Access(k, p, pages[0], draws[0]).value;
      AccessAboveFloor(k, n, p, pages[0], draws[0]);
      MissingAfter(k, k1, p, pages);
      SearchTakes(k1, n, p, pages[1..], draws[1..]);
    }
  }

  /** And the process gets them: what leaves the pool is in its table. */
  lemma {:induction false} SearchBalances(k: Kernel, n: nat, p: nat, pages: seq<nat>, draws: seq<nat>)
    requires |k.tables| == n && p < n && |draws| == |pages| && Search(k, n, p, pages, draws).Some?
    ensures var t := Search(k, n, p, pages, draws).value;
      |t.tables| == n && |t.free| + |t.tables[p]| == |k.free| + |k.tables[p]|
    decreases |pages|
  {
    if pages != [] {
      var k1 := Access(k, p, pages[0], draws[0]).value;
      AccessBalances(k, p, pages[0], draws[0]);
      SearchBalances(k1, n, p, pages[1..], draws[1..]);
    }
  }

  lemma AccessBalances(k: Kernel, p: nat, page: nat, draw: nat)
    requires Sized(k, p) && Access(k, p, page, draw).Some?
    ensures var t := Access(k, p, page, draw).value;
      |t.tables| == |k.tables| && |t.free| + |t.tables[p]| == |k.free| + |k.tables[p]|
  {
    var t := Access(k, p, page, draw).value;
    if page in k.tables[p] {
      assert t.tables[p].Keys == k.tables[p].Keys;
    } else if |k.free| > NFFMIN {
      assert t.tables[p].Keys == k.tables[p].Keys + {page};
    } else {
      var q := Victim(k.tables[p]).value;
      assert t.tables[p].Keys == k.tables[p].Keys - {q} + {page};
    }
    assert |t.tables[p]| == |t.tables[p].Keys| && |k.tables[p]| == |k.tables[p].Keys|;
  }

  lemma TakeOutSize(t: map<nat, Slot>, q: nat)
    requires q in t
    ensures |t - {q}| == |t| - 1
  {
    assert (t - {q}).Keys == t.Keys - {q};
    assert |t - {q}| == |(t - {q}).Keys| && |t| == |t.Keys|;
  }

  lemma {:induction false} ReleaseFills(k: Kernel, p: nat, page: nat)
    requires p < |k.tables| && page <= PAGE_TABLE_SIZE
    requires forall g | g in k.tables[p] :: page <= g < PAGE_TABLE_SIZE
    ensures |ReleaseFrom(k, p, page).free| == |k.free| + |k.tables[p]|
    decreases PAGE_TABLE_SIZE - page
  {
    if page == PAGE_TABLE_SIZE {
      assert k.tables[p] == map[];
    } else if page in k.tables[p] {
      TakeOutSize(k.tables[p], page);
      ReleaseFills(ReleaseOne(k, p, page), p, page + 1);
    } else {
      ReleaseFills(k, p, page + 1);
    }
  }

  // ----- the first round

  /** The frames the first searches of the first d processes want. */
  function Wanted(c: Config, d: nat): nat
    requires ConfigOk(c) && d <= |c.sizes|
  {
    if d == 0 then 0 else Wanted(c, d - 1) + |Distinct(PR.Trace(c, d - 1, 0))|
  }

  /** What is in the pool after d turns: a process with one search only gives everything back. */
  function PoolAt(c: Config, d: nat): int
    requires ConfigOk(c) && d <= |c.sizes|
  {
    if c.searches == 1 then Spare(c) + d * ESSENTIAL_PAGES else Lowered(Spare(c), Wanted(c, d))
  }

  /** The first d processes have made their first search; the others have nothing but essential pages. */
  ghost predicate AtTurn(c: Config, s: Sys, d: nat) {
    && Inv(c, s) && FirstRound(c, s, d)
    && (forall q | d <= q < |c.sizes| :: OnlyEssential(s.k, q))
    && (d < |c.sizes| ==> |s.k.free| == PoolAt(c, d))
  }

  lemma InitAtTurn(c: Config)
    requires ConfigOk(c)
    ensures AtTurn(c, Init(c), 0)
  {
    InitInv(c);
    InitFirst(c, Init(c));
  }

  lemma AllMissing(k: Kernel, p: nat, pages: seq<nat>)
    requires p < |k.tables| && OnlyEssential(k, p) && DataTrace(pages)
    ensures Missing(k, p, pages) == Distinct(pages)
  {
  }

  lemma EssentialSize(k: Kernel, p: nat)
    requires p < |k.tables| && HasEssential(k, p) && OnlyEssential(k, p)
    ensures |k.tables[p]| == ESSENTIAL_PAGES
  {
    var t := k.tables[p];
    FullSet(ESSENTIAL_PAGES, t.Keys);
    assert |t| == |t.Keys|;
  }

  lemma PoolGivenBack(c: Config, s: Sys, d: nat, draws: seq<nat>)
    requires AtTurn(c, s, d) && d < |c.sizes| && s.ready[0] == d && |draws| == |NextPages(c, s)| && Turn(c, s, draws).Some?
    requires c.searches == 1
    ensures |Turn(c, s, draws).value.k.free| == PoolAt(c, d + 1)
  {
    var n, pages := |c.sizes|, NextPages(c, s);
    var k := Search(s.k, n, d, pages, draws).value;
    SearchOutcome(c, s, draws);
    SearchBalances(s.k, n, d, pages, draws);
    assert Ranked(c, s, d);
    EssentialSize(s.k, d);
    AgedFills(c, k, d);
  }

  lemma PoolLowered(c: Config, s: Sys, d: nat, draws: seq<nat>)
    requires AtTurn(c, s, d) && d < |c.sizes| && s.ready[0] == d && |draws| == |NextPages(c, s)| && Turn(c, s, draws).Some?
    requires c.searches != 1
    ensures |Turn(c, s, draws).value.k.free| == PoolAt(c, d + 1)
  {
    var n, pages := |c.sizes|, NextPages(c, s);
    TraceFacts(c, d, 0);
    SearchTakes(s.k, n, d, pages, draws);
    AllMissing(s.k, d, pages);
  }

  lemma AgedFills(c: Config, k: Kernel, p: nat)
    requires Shape(k, |c.sizes|) && p < |c.sizes|
    ensures |Release(Age(k, p), p).free| == |k.free| + |k.tables[p]|
  {
    var aged := Age(k, p);
    assert aged.tables[p].Keys == k.tables[p].Keys;
    assert |aged.tables[p]| == |aged.tables[p].Keys| && |k.tables[p]| == |k.tables[p].Keys|;
    ReleaseFills(aged, p, 0);
  }

  lemma TurnAt(c: Config, s: Sys, d: nat, draws: seq<nat>)
    requires AtTurn(c, s, d) && d < |c.sizes| && s.ready[0] == d && |draws| == |NextPages(c, s)| && Turn(c, s, draws).Some?
    ensures AtTurn(c, Turn(c, s, draws).value, d + 1)
  {
    TurnInv(c, s, draws);
    RestUntouched(c, s, d, draws);
    if c.searches == 1 {
      PoolGivenBack(c, s, d, draws);
    } else {
      PoolLowered(c, s, d, draws);
    }
  }

  lemma RestUntouched(c: Config, s: Sys, d: nat, draws: seq<nat>)
    requires AtTurn(c, s, d) && d < |c.sizes| && s.ready[0] == d && |draws| == |NextPages(c, s)| && Turn(c, s, draws).Some?
    ensures var t := Turn(c, s, draws).value;
      && |t.k.tables| == |c.sizes| && SysShape(c, t) && FirstRound(c, t, d + 1)
      && (forall q | d + 1 <= q < |c.sizes| :: OnlyEssential(t.k, q))
  {
    var k := Search(s.k, |c.sizes|, d, NextPages(c, s), draws).value;
    SearchOutcome(c, s, draws);
    SettledKernel(c, s, k);
    SettledQueue(c, s, k);
    var e := SettledRound(c, s, k, d);
    var t := Settle(c, s, k);
    forall q: nat | d + 1 <= q < |c.sizes|
      ensures OnlyEssential(t.k, q)
    {
      assert OnlyEssential(s.k, q) && t.k.tables[q] == s.k.tables[q];
    }
  }

  lemma NoData(k: Kernel, p: nat)
    requires p < |k.tables| && OnlyEssential(k, p)
    ensures !HasData(k, p)
  {
  }

  /** The turn of process d goes through exactly if it wants no page or the pool is above the floor. */
  lemma TurnGoesThrough(c: Config, s: Sys, d: nat, draws: seq<nat>)
    requires AtTurn(c, s, d) && d < |c.sizes| && s.ready[0] == d && |draws| == |NextPages(c, s)|
    ensures Turn(c, s, draws).Some? <==> c.sizes[d] < 2 || PoolAt(c, d) > NFFMIN
  {
    var n, pages := |c.sizes|, NextPages(c, s);
    TraceFacts(c, d, 0);
    if pages != [] {
      if |s.k.free| > NFFMIN {
        SearchGoesThrough(s.k, n, d, pages, draws);
      } else {
        NoData(s.k, d);
        AccessFailsWhen(s.k, n, d, pages[0], draws[0]);
      }
    }
  }

  // ----- whole runs

  /** The frames there would be for the first search of process p if the pool had no floor. */
  function Room(c: Config, p: nat): int
    requires ConfigOk(c) && p <= |c.sizes|
  {
    if c.searches == 1 then Spare(c) + p * ESSENTIAL_PAGES else Spare(c) - Wanted(c, p)
  }

  /** Whoever has a page to touch finds the pool above the floor at the first search. */
  predicate Roomy(c: Config)
    requires ConfigOk(c)
  {
    forall p: nat | p < |c.sizes| && c.sizes[p] >= 2 :: Room(c, p) > NFFMIN
  }

  /** The simulation is over, or its next turn goes through whatever rand() gives. */
  ghost predicate GoesOn(c: Config, s: Sys) {
    s.ready == [] || (SysShape(c, s) && forall draws: seq<nat> | |draws| == |NextPages(c, s)| :: Turn(c, s, draws).Some?)
  }

  /** After the first round the next turn goes through: the process has a data page, or wants none. */
  lemma LaterTurn(c: Config, s: Sys)
    requires ConfigOk(c) && Roomy(c) && Inv(c, s) && forall p | 0 <= p < |c.sizes| :: s.scnt[p] > 0
    ensures GoesOn(c, s)
  {
    if s.ready != [] {
      var n, p := |c.sizes|, s.ready[0];
      assert Ranked(c, s, p);
      TraceFacts(c, p, s.scnt[p]);
      forall draws: seq<nat> | |draws| == |NextPages(c, s)|
        ensures Turn(c, s, draws).Some?
      {
        if c.sizes[p] >= 2 {
          assert Spare(c) > 0;
          SearchGoesThrough(s.k, n, p, NextPages(c, s), draws);
        }
      }
    }
  }

  lemma RoomyTurn(c: Config, s: Sys, d: nat)
    requires ConfigOk(c) && Roomy(c) && AtTurn(c, s, d)
    ensures GoesOn(c, s)
  {
    if d < |c.sizes| {
      assert s.ready[0] == d + 0;
      forall draws: seq<nat> | |draws| == |NextPages(c, s)|
        ensures Turn(c, s, draws).Some?
      {
        TurnGoesThrough(c, s, d, draws);
      }
    } else {
      LaterTurn(c, s);
    }
  }

  /** In the i-th state of a run the first i processes have made their first search. */
  lemma {:induction false} RunAtTurn(c: Config, run: seq<Sys>, i: nat)
    requires RunOf(c, run) && i < |run| && i <= |c.sizes|
    ensures AtTurn(c, run[i], i)
  {
    if i == 0 {
      InitAtTurn(c);
    } else {
      RunAtTurn(c, run, i - 1);
      assert run[i - 1].ready[0] == i - 1 + 0;
      var draws := NextInv(c, run[i - 1], run[i]);
      TurnAt(c, run[i - 1], i - 1, draws);
    }
  }

  lemma {:induction false} RunLater(c: Config, run: seq<Sys>, i: nat)
    requires RunOf(c, run) && |c.sizes| <= i < |run|
    ensures Inv(c, run[i]) && forall p | 0 <= p < |c.sizes| :: run[i].scnt[p] > 0
    decreases i
  {
    if i == |c.sizes| {
      RunAtTurn(c, run, i);
    } else {
      RunLater(c, run, i - 1);
      var draws := NextInv(c, run[i - 1], run[i]);
      TurnCounts(c, run[i - 1], draws);
    }
  }

  lemma RoomyRun(c: Config, run: seq<Sys>)
    requires RunOf(c, run) && Roomy(c)
    ensures GoesOn(c, run[|run| - 1])
  {
    var i := |run| - 1;
    if i <= |c.sizes| {
      RunAtTurn(c, run, i);
      RoomyTurn(c, run[i], i);
    } else {
      RunLater(c, run, i);
      LaterTurn(c, run[i]);
    }
  }

  /** When everybody before p finds room, there is a run to the turn of p. */
  lemma {:induction false} RunTo(c: Config, p: nat) returns (run: seq<Sys>)
    requires ConfigOk(c) && p <= |c.sizes|
    requires forall q: nat | q < p && c.sizes[q] >= 2 :: Room(c, q) > NFFMIN
    ensures RunOf(c, run) && |run| == p + 1
  {
    if p == 0 {
      run := [Init(c)];
    } else {
      run := RunTo(c, p - 1);
      RunAtTurn(c, run, p - 1);
      var t := NextWithRoom(c, run[p - 1], p - 1);
      RunMore(c, run, t);
      run := run + [t];
    }
  }

  lemma RunMore(c: Config, run: seq<Sys>, t: Sys)
    requires RunOf(c, run) && Next(c, run[|run| - 1], t)
    ensures RunOf(c, run + [t])
  {
    var more := run + [t];
    forall i | 0 < i < |more|
      ensures Next(c, more[i - 1], more[i])
    {
      assert i < |run| ==> Next(c, run[i - 1], run[i]);
    }
  }

  lemma NextWithRoom(c: Config, s: Sys, d: nat) returns (t: Sys)
    requires AtTurn(c, s, d) && d < |c.sizes| && (c.sizes[d] >= 2 ==> Room(c, d) > NFFMIN)
    ensures Next(c, s, t)
  {
    assert s.ready[0] == d + 0;
    var draws := seq(|NextPages(c, s)|, _ => 0);
    TurnGoesThrough(c, s, d, draws);
    t := Turn(c, s, draws).value;
  }

  /** The first process that finds no room. */
  lemma {:induction false} FirstWithout(c: Config, n: nat) returns (p: nat)
    requires ConfigOk(c) && n <= |c.sizes| && !forall q: nat | q < n && c.sizes[q] >= 2 :: Room(c, q) > NFFMIN
    ensures p < n && c.sizes[p] >= 2 && Room(c, p) <= NFFMIN
    ensures forall q: nat | q < p && c.sizes[q] >= 2 :: Room(c, q) > NFFMIN
  {
    if forall q: nat | q < n - 1 && c.sizes[q] >= 2 :: Room(c, q) > NFFMIN {
      p := n - 1;
    } else {
      p := FirstWithout(c, n - 1);
    }
  }

  lemma WithoutRoom(c: Config) returns (run: seq<Sys>)
    requires ConfigOk(c) && !Roomy(c)
    ensures RunOf(c, run) && !GoesOn(c, run[|run| - 1])
  {
    var p := FirstWithout(c, |c.sizes|);
    run := RunTo(c, p);
    RunAtTurn(c, run, p);
    var s := run[p];
    assert s.ready[0] == p + 0;
    var draws := seq(|NextPages(c, s)|, _ => 0);
    TurnGoesThrough(c, s, p, draws);
    assert !Turn(c, s, draws).Some?;
  }

  /** No search is ever without a victim, in any run, exactly when everybody who has a page to touch finds
      room at the first search: what later searches and rand() do makes no difference. */
  lemma VictimAlwaysExistsIff(c: Config)
    requires ConfigOk(c)
    ensures (forall run | RunOf(c, run) :: GoesOn(c, run[|run| - 1])) <==> Roomy(c)
  {
    if Roomy(c) {
      forall run | RunOf(c, run)
        ensures GoesOn(c, run[|run| - 1])
      {
        RoomyRun(c, run);
      }
    } else {
      var run := WithoutRoom(c);
    }
  }

  lemma RanPast(c: Config, run: seq<Sys>, p: nat)
    requires RunOf(c, run) && p + 1 < |run| && p < |c.sizes| && c.sizes[p] >= 2
    ensures Room(c, p) > NFFMIN
  {
    RunAtTurn(c, run, p);
    assert run[p].ready[0] == p + 0;
    var draws := NextInv(c, run[p], run[p + 1]);
    TurnGoesThrough(c, run[p], p, draws);
  }

  /** A run that gets past the first round shows that there was room. */
  lemma RanSoRoomy(c: Config, run: seq<Sys>)
    requires RunOf(c, run) && |run| > |c.sizes|
    ensures Roomy(c)
  {
    forall p: nat | p < |c.sizes| && c.sizes[p] >= 2
      ensures Room(c, p) > NFFMIN
    {
      RanPast(c, run, p);
    }
  }

  lemma AtLeastOnce(m: nat, n: nat)
    requires m >= 1
    ensures m * n >= n
  {
  }

  lemma EndedLength(c: Config, run: seq<Sys>)
    requires RunOf(c, run) && run[|run| - 1].ready == []
    ensures |run| == c.searches * |c.sizes| + 1 && Inv(c, run[|run| - 1])
  {
    var i := |run| - 1;
    EachTurnCounts(c, run, i);
    NothingLeft(c, run[i]);
    NothingToDo(run[i].scnt, c.searches);
  }

  /** A run to the end has a turn for each search. */
  lemma EndedSoRoomy(c: Config, run: seq<Sys>)
    requires RunOf(c, run) && run[|run| - 1].ready == []
    ensures Roomy(c)
  {
    EndedLength(c, run);
    AtLeastOnce(c.searches, |c.sizes|);
    RanSoRoomy(c, run);
  }

  lemma {:induction false} NothingToDo(scnt: seq<nat>, m: nat)
    requires forall p | 0 <= p < |scnt| :: scnt[p] == m
    ensures PR.Remaining(scnt, m) == 0
  {
    if scnt != [] {
      NothingToDo(scnt[1..], m);
    }
  }

  lemma {:induction false} WantedAtMost(c: Config, d: nat)
    requires ConfigOk(c) && d <= |c.sizes|
    ensures Wanted(c, d) <= 13 * d
  {
    if d > 0 {
      TraceFacts(c, d - 1, 0);
      WantedAtMost(c, d - 1);
    }
  }

  /** There is always room for 491 processes. */
  lemma FewAreRoomy(c: Config)
    requires ConfigOk(c) && |c.sizes| <= 491
    ensures Roomy(c)
  {
    forall p: nat | p < |c.sizes|
      ensures Room(c, p) > NFFMIN
    {
      WantedAtMost(c, p);
    }
  }
}
