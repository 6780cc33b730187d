/** Runs of the page-replacement simulator turn by turn: whose turn it is and what it searches for. */
module LruTurns {
  import opened Options
  import opened SearchTrace
  import opened LruSpec
  import opened LruRuns
  import opened LruSystem
  import opened LruTheorems

  /** Everybody has done r searches, and the first d one more; the others are next, by number. */
  predicate InRound(c: Config, s: Sys, r: nat, d: nat) {
    var n := |c.sizes|;
    && d < n == |s.scnt|
    && (forall p | 0 <= p < n :: s.scnt[p] == r + if p < d then 1 else 0)
    && |s.ready| == (if r >= c.searches then 0 else if r + 1 < c.searches then n else n - d)
    && (forall k | 0 <= k < |s.ready| :: s.ready[k] == if k < n - d then d + k else k - (n - d))
  }

  lemma NextInRound(c: Config, s: Sys, t: Sys, r: nat, d: nat)
    requires InRound(c, s, r, d) && Next(c, s, t)
    ensures s.ready[0] == d && r < c.searches
    ensures if d + 1 < |c.sizes| then InRound(c, t, r, d + 1) else InRound(c, t, r + 1, 0)
  {
    var draws: seq<nat> :| |draws| == |NextPages(c, s)| && Turn(c, s, draws) == Some(t);
  }

  /** How many rounds are done by turn i, and how much of the next. */
  function Rounds(i: nat, n: nat): (rd: (nat, nat))
    requires n > 0
    ensures rd.1 < n
  {
    if i == 0 then (0, 0)
    else
      var rd := Rounds(i - 1, n);
      if rd.1 + 1 < n then (rd.0, rd.1 + 1) else (rd.0 + 1, 0)
  }

  lemma {:induction false} TurnsInRounds(c: Config, run: seq<Sys>, i: nat)
    requires RunOf(c, run) && i < |run| && |c.sizes| > 0
    ensures InRound(c, run[i], Rounds(i, |c.sizes|).0, Rounds(i, |c.sizes|).1)
  {
    if i > 0 {
      TurnsInRounds(c, run, i - 1);
      RoundGoesOn(c, run, i - 1, i, Rounds(i - 1, |c.sizes|).0, Rounds(i - 1, |c.sizes|).1);
    }
  }

  lemma RoundGoesOn(c: Config, run: seq<Sys>, i: nat, next: nat, r: nat, d: nat)
    requires RunOf(c, run) && next == i + 1 < |run| && InRound(c, run[i], r, d)
    ensures run[i].ready != [] && run[i].ready[0] == d && r < c.searches
    ensures if d + 1 < |c.sizes| then InRound(c, run[next], r, d + 1) else InRound(c, run[next], r + 1, 0)
  {
    assert Next(c, run[next - 1], run[next]);
    NextInRound(c, run[i], run[next], r, d);
  }

  lemma {:induction false} RoundsDivide(i: nat, n: nat)
    requires n > 0
    ensures Rounds(i, n).0 == i / n && Rounds(i, n).1 == i % n
  {
    if i > 0 {
      RoundsDivide(i - 1, n);
      OneMore(i - 1, n, (i - 1) / n, (i - 1) % n);
    }
  }

  lemma OneMore(i: nat, n: nat, r: nat, d: nat)
    requires n > 0 && r == i / n && d == i % n
    ensures if d + 1 < n then (i + 1) / n == r && (i + 1) % n == d + 1 else (i + 1) / n == r + 1 && (i + 1) % n == 0
  {
    assert i == r * n + d;
    if d + 1 < n {
      Divided(i + 1, n, r, d + 1);
    } else {
      assert i + 1 == (r + 1) * n;
      Divided(i + 1, n, r + 1, 0);
    }
  }

  lemma Divided(i: nat, n: nat, r: nat, d: nat)
    requires n > 0 && i == r * n + d && d < n
    ensures i / n == r && i % n == d
  {
    var x, y := i / n, i % n;
    assert i == x * n + y;
    assert x < r ==> (x + 1) * n <= r * n;
    assert x > r ==> (r + 1) * n <= x * n;
  }

  lemma RunHasProcess(c: Config, run: seq<Sys>, i: nat, next: nat)
    requires RunOf(c, run) && next == i + 1 < |run|
    ensures |c.sizes| > 0
  {
    assert Next(c, run[next - 1], run[next]);
  }

  /** The i-th turn is that of process i mod n, for its search number i div n. */
  lemma WhoseTurn(c: Config, run: seq<Sys>, i: nat, next: nat)
    requires RunOf(c, run) && next == i + 1 < |run|
    ensures |c.sizes| > 0 && run[i].ready != [] && run[i].ready[0] == i % |c.sizes|
    ensures |run[i].scnt| == |c.sizes| && run[i].scnt[i % |c.sizes|] == i / |c.sizes| < c.searches
  {
    RunHasProcess(c, run, i, next);
    TurnsInRounds(c, run, i);
    RoundsDivide(i, |c.sizes|);
    RoundGoesOn(c, run, i, next, Rounds(i, |c.sizes|).0, Rounds(i, |c.sizes|).1);
  }

  // ----- what a turn searches for

  /** In this turn p searched for `key`, touching the pages for it in order; nobody else's pages moved. */
  ghost predicate SearchesFor(c: Config, s: Sys, t: Sys, p: nat, key: int)
    requires p < |c.sizes|
  {
    var n, pages := |c.sizes|, PagesFor(c.sizes[p], key);
    exists draws: seq<nat> :: |draws| == |pages| && SearchedTo(Search(s.k, n, p, pages, draws), s, t, n, p)
  }

  /** The turn keeps what the search left resident, or gives all of it back if it was the last. */
  predicate SearchedTo(r: Option<Kernel>, s: Sys, t: Sys, n: nat, p: nat) {
    && r.Some? && p < n == |r.value.tables| == |t.k.tables| == |s.k.tables| && |s.scnt| == n && t.scnt == s.scnt[p := s.scnt[p] + 1]
    && (forall o | 0 <= o < n && o != p :: t.k.tables[o] == s.k.tables[o])
    && (t.k.tables[p].Keys == r.value.tables[p].Keys || t.k.tables[p] == map[])
    && t.k.stats == r.value.stats
  }

  lemma TurnSearches(c: Config, s: Sys, t: Sys, p: nat)
    requires Inv(c, s) && Next(c, s, t) && s.ready[0] == p
    ensures p < |c.sizes| == |s.scnt| && s.scnt[p] < |c.keys[p]| && SearchesFor(c, s, t, p, c.keys[p][s.scnt[p]])
  {
    var draws := NextInv(c, s, t);
    var k := Search(s.k, |c.sizes|, p, NextPages(c, s), draws).value;
    SearchOutcome(c, s, draws);
    SettledSearch(c, s, k);
    assert SearchedTo(Search(s.k, |c.sizes|, p, NextPages(c, s), draws), s, t, |c.sizes|, p);
  }

  lemma SettledSearch(c: Config, s: Sys, k: Kernel)
    requires Inv(c, s) && s.ready != [] && Sound(k, |c.sizes|) && OnlyDataMoved(s.k, k, |c.sizes|, s.ready[0])
    ensures SearchedTo(Some(k), s, Settle(c, s, k), |c.sizes|, s.ready[0])
  {
    SettledKernel(c, s, k);
    SettledOwn(c, s, k);
  }

  lemma SettledOwn(c: Config, s: Sys, k: Kernel)
    requires SysShape(c, s) && s.ready != [] && |k.tables| == |c.sizes|
    requires var p, t := s.ready[0], Settle(c, s, k); |t.k.tables| == |c.sizes| && (t.scnt[p] < c.searches || t.k.tables[p] == map[])
    ensures var p, t := s.ready[0], Settle(c, s, k);
      && t.k.stats == k.stats && t.scnt == s.scnt[p := s.scnt[p] + 1]
      && (t.k.tables[p].Keys == k.tables[p].Keys || t.k.tables[p] == map[])
  {
    var p := s.ready[0];
    AgeTables(k, |c.sizes|, p);
    ReleaseFromStats(Age(k, p), p, 0);
  }

  /** In turn i process p, that is i mod n, searches for its key number j, that is i div n. */
  lemma KeysInOrder(c: Config, run: seq<Sys>, i: nat, next: nat) returns (p: nat, j: nat)
    requires RunOf(c, run) && next == i + 1 < |run|
    ensures |c.sizes| > 0 && p == i % |c.sizes| && j == i / |c.sizes|
    ensures p < |c.sizes| == |c.keys| && j < |c.keys[p]| && SearchesFor(c, run[i], run[next], p, c.keys[p][j])
  {
    WhoseTurn(c, run, i, next);
    RunInv(c, run, i);
    assert Next(c, run[next - 1], run[next]);
    p, j := i % |c.sizes|, i / |c.sizes|;
    TurnSearches(c, run[i], run[next], p);
  }

  // ----- what the counters count

  /** Accesses and faults of a search, and nothing to the others' counters. */
  lemma {:induction false} SearchCounts(k: Kernel, n: nat, p: nat, pages: seq<nat>, draws: seq<nat>)
    requires p < n == |k.stats| && |draws| == |pages| && Search(k, n, p, pages, draws).Some?
    ensures var t := Search(k, n, p, pages, draws).value;
      && |t.stats| == n && t.stats[p].accesses == k.stats[p].accesses + |pages|
      && t.stats[p].faults == k.stats[p].faults + Misses(k, n, p, pages, draws, |pages|)
      && forall o | 0 <= o < n && o != p :: t.stats[o] == k.stats[o]
    decreases |pages|
  {
    if pages != [] {
      var k1 := Access(k, p, pages[0], draws[0]).value;
      AccessNumbers(k, p, pages[0], draws[0]);
      SearchCounts(k1, n, p, pages[1..], draws[1..]);
      MissesFirst(k, n, p, pages, draws, |pages|);
    }
  }

  /** How many of the first m accesses find their page missing. */
  function Misses(k: Kernel, n: nat, p: nat, pages: seq<nat>, draws: seq<nat>, m: nat): nat
    requires p < n && |draws| == |pages| && m <= |pages|
  {
    if m == 0 then 0
    else
      var r := Search(k, n, p, pages[..m - 1], draws[..m - 1]);
      Misses(k, n, p, pages, draws, m - 1) + if r.Some? && p < |r.value.tables| && pages[m - 1] !in r.value.tables[p] then 1 else 0
  }

  lemma {:induction false} MissesFirst(k: Kernel, n: nat, p: nat, pages: seq<nat>, draws: seq<nat>, m: nat)
    requires p < n && |draws| == |pages| && 0 < m <= |pages| && Shape(k, n) && Access(k, p, pages[0], draws[0]).Some?
    ensures var k1 := Access(k, p, pages[0], draws[0]).value;
      Misses(k, n, p, pages, draws, m) == Misses(k1, n, p, pages[1..], draws[1..], m - 1) + if pages[0] !in k.tables[p] then 1 else 0
    decreases m
  {
    var k1 := Access(k, p, pages[0], draws[0]).value;
    if m == 1 {
      assert pages[..0] == [] && draws[..0] == [];
    } else {
      MissesFirst(k, n, p, pages, draws, m - 1);
      assert pages[..m - 1][1..] == pages[1..][..m - 2] && draws[..m - 1][1..] == draws[1..][..m - 2];
      assert pages[..m - 1][0] == pages[0] && draws[..m - 1][0] == draws[0];
    }
  }

  /** One access counts one, and one fault if the page is missing. */
  lemma AccessNumbers(k: Kernel, p: nat, page: nat, draw: nat)
    requires Sized(k, p) && Access(k, p, page, draw).Some?
    ensures var t := Access(k, p, page, draw).value;
      && |t.stats| == |k.stats| && t.stats[p].accesses == k.stats[p].accesses + 1
      && t.stats[p].faults == k.stats[p].faults + (if page in k.tables[p] then 0 else 1)
      && (forall o | 0 <= o < |k.stats| && o != p :: t.stats[o] == k.stats[o])
      && (page in k.tables[p] || |k.free| > NFFMIN ==>
            t.stats[p].(accesses := 0, faults := 0) == k.stats[p].(accesses := 0, faults := 0))
  {
  }

  /** The pages of the first j searches of p. */
  function PagesTotal(c: Config, p: nat, j: nat): nat
    requires p < |c.sizes| == |c.keys| && j <= |c.keys[p]|
  {
    if j == 0 then 0 else PagesTotal(c, p, j - 1) + |PagesFor(c.sizes[p], c.keys[p][j - 1])|
  }

  ghost predicate Accessed(c: Config, s: Sys, p: nat) {
    && p < |c.sizes| == |c.keys| == |s.scnt| == |s.k.stats| && s.scnt[p] <= |c.keys[p]|
    && s.k.stats[p].accesses == PagesTotal(c, p, s.scnt[p])
  }

  lemma NextAccessed(c: Config, s: Sys, t: Sys, p: nat)
    requires Inv(c, s) && Next(c, s, t) && Accessed(c, s, p)
    ensures Accessed(c, t, p)
  {
    var h := s.ready[0];
    TurnSearches(c, s, t, h);
    var pages := PagesFor(c.sizes[h], c.keys[h][s.scnt[h]]);
    var draws: seq<nat> :| |draws| == |pages| && SearchedTo(Search(s.k, |c.sizes|, h, pages, draws), s, t, |c.sizes|, h);
    SearchCounts(s.k, |c.sizes|, h, pages, draws);
    NowAccessed(c, s, t, p, h, |pages|);
  }

  lemma NowAccessed(c: Config, s: Sys, t: Sys, p: nat, h: nat, more: nat)
    requires Accessed(c, s, p) && h < |c.sizes| && s.scnt[h] < |c.keys[h]| && more == |PagesFor(c.sizes[h], c.keys[h][s.scnt[h]])|
    requires t.scnt == s.scnt[h := s.scnt[h] + 1] && |t.k.stats| == |c.sizes|
    requires t.k.stats[h].accesses == s.k.stats[h].accesses + more
    requires forall o | 0 <= o < |c.sizes| && o != h :: t.k.stats[o] == s.k.stats[o]
    ensures Accessed(c, t, p)
  {
  }

  lemma {:induction false} LoadTenStats(k: Kernel, p: nat, page: nat)
    requires Shape(k, |k.tables|) && p < |k.tables| && page <= ESSENTIAL_PAGES <= page + |k.free|
    ensures LoadTen(k, p, page).stats == k.stats
    decreases ESSENTIAL_PAGES - page
  {
    if page < ESSENTIAL_PAGES {
      LoadTenStats(LoadFree(k, p, page), p, page + 1);
    }
  }

  lemma {:induction false} LoadAllStats(k: Kernel, p: nat)
    requires Shape(k, |k.tables|) && p <= |k.tables| && (|k.tables| - p) * ESSENTIAL_PAGES <= |k.free|
    ensures LoadAll(k, p).stats == k.stats
    decreases |k.tables| - p
  {
    if p < |k.tables| {
      LoadTenStats(k, p, 0);
      LoadAllStats(LoadTen(k, p, 0), p + 1);
    }
  }

  /** In every state of a run the accesses counted for a process are those of all pages of the searches it
      has done. */
  lemma {:induction false} AccessesCounted(c: Config, run: seq<Sys>, i: nat, p: nat)
    requires RunOf(c, run) && i < |run| && p < |c.sizes|
    ensures Accessed(c, run[i], p)
  {
    RunInv(c, run, i);
    if i == 0 {
      LoadAllStats(FreshKernel(|c.sizes|), 0);
    } else {
      AccessesCounted(c, run, i - 1, p);
      RunInv(c, run, i - 1);
      NextAccessed(c, run[i - 1], run[i], p);
    }
  }

  // ----- what an exchange does

  /** Entry f of the free list is exchanged for the frame of q, which is tagged with what it holds. */
  predicate Exchanged(k: Kernel, t: Kernel, p: nat, page: nat, q: nat, f: nat) {
    && p < |k.tables| == |t.tables| && q in k.tables[p] && q !in t.tables[p] && page in t.tables[p]
    && f < |k.free| == |t.free|
    && t.tables[p][page].frame == k.free[f].fno
    && t.free[f] == FF(k.tables[p][q].frame, q, p) && (forall i | 0 <= i < |k.free| && i != f :: t.free[i] == k.free[i])
    && t.tables[p].Keys == k.tables[p].Keys - {q} + {page}
  }

  /** The attempt that chose entry f is counted, and no other. */
  predicate AttemptCounted(s: Stats, t: Stats, rank: nat) {
    && t.replacements == s.replacements + 1
    && t.attempt1 == s.attempt1 + (if rank == 1 then 1 else 0) && t.attempt2 == s.attempt2 + (if rank == 2 then 1 else 0)
    && t.attempt3 == s.attempt3 + (if rank == 3 then 1 else 0) && t.attempt4 == s.attempt4 + (if rank == 4 then 1 else 0)
  }

  /** At the floor a missing page gets the first free frame of the best class there is, which is counted, and
      the frame given up for it is tagged with the page it holds. */
  lemma AccessExchanges(k: Kernel, p: nat, page: nat, draw: nat) returns (q: nat, f: nat)
    requires Sized(k, p) && Access(k, p, page, draw).Some? && page !in k.tables[p] && |k.free| <= NFFMIN
    ensures var t := Access(k, p, page, draw).value;
      && Exchanged(k, t, p, page, q, f) && p < |t.stats|
      && (forall i | 0 <= i < |k.free| :: Rank(k.free[f], p, page) <= Rank(k.free[i], p, page))
      && AttemptCounted(k.stats[p], t.stats[p], Rank(k.free[f], p, page))
  {
    ChoiceIsBest(k.free, p, page, draw);
    q, f := Victim(k.tables[p]).value, Choose(k.free, p, page, draw).f;
  }

  /** Above the floor a missing page gets the frame on top of the free list. */
  lemma AccessLoads(k: Kernel, p: nat, page: nat, draw: nat)
    requires Sized(k, p) && page !in k.tables[p] && |k.free| > NFFMIN
    ensures Access(k, p, page, draw).Some?
    ensures var t, top := Access(k, p, page, draw).value, |k.free| - 1;
      && |t.tables| == |k.tables| && t.free == k.free[..top]
      && t.tables[p].Keys == k.tables[p].Keys + {page} && t.tables[p][page].frame == k.free[top].fno
      && forall g | g in k.tables[p] :: t.tables[p][g] == k.tables[p][g]
  {
  }

  /** What a process gives back at its end goes on the free list in the order of its pages, owned by nobody. */
  lemma {:induction false} ReleaseInOrder(k: Kernel, p: nat, page: nat) returns (pages: seq<nat>)
    requires p < |k.tables| && page <= PAGE_TABLE_SIZE
    requires forall g | g in k.tables[p] :: page <= g < PAGE_TABLE_SIZE
    ensures (forall g :: g in pages <==> g in k.tables[p]) && (forall a, b | 0 <= a < b < |pages| :: pages[a] < pages[b])
    ensures ReleaseFrom(k, p, page).free == k.free + seq(|pages|, i requires 0 <= i < |pages| => FF(k.tables[p][pages[i]].frame, -1, -1))
    decreases PAGE_TABLE_SIZE - page
  {
    pages := [];
    if page < PAGE_TABLE_SIZE {
      if page in k.tables[p] {
        var more := ReleaseInOrder(ReleaseOne(k, p, page), p, page + 1);
        assert forall i | 0 <= i < |more| :: more[i] in more;
        pages := [page] + more;
        FramesInOrder(k, p, page, more);
      } else {
        pages := ReleaseInOrder(k, p, page + 1);
      }
    }
  }

  lemma FramesInOrder(k: Kernel, p: nat, page: nat, more: seq<nat>)
    requires p < |k.tables| && page in k.tables[p] && forall g | g in more :: g in k.tables[p] && g != page
    ensures var pages, t := [page] + more, ReleaseOne(k, p, page);
            k.free + seq(|pages|, i requires 0 <= i < |pages| => FF(k.tables[p][pages[i]].frame, -1, -1))
            == t.free + seq(|more|, i requires 0 <= i < |more| => FF(t.tables[p][more[i]].frame, -1, -1))
  {
  }
}
