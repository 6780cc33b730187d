/** Demand paging with swapping, on values: the pool of free frames as a stack (its top last)
    and for each process the pages it has in memory. */
module PagingSpec {
  import opened Pigeonhole
  import opened SearchTrace

  const USER_FRAMES: nat := 12288

  datatype Mem = Mem(free: seq<nat>, tables: seq<map<nat, nat>>)

  /** Where a frame is: at a height of the stack, or behind a page of a process. */
  datatype Place = InPool(k: nat) | Held(p: nat, page: nat)

  function Load(m: Mem, p: nat, page: nat): Mem
    requires p < |m.tables| && m.free != []
  {
    var top := |m.free| - 1;
    var table: map<nat, nat> := m.tables[p][page := m.free[top]];
    Mem(m.free[..top], m.tables[p := table])
  }

  /** Gives back p's pages from `page` on, lowest first. */
  function Unload(m: Mem, p: nat, page: nat): (r: Mem)
    requires p < |m.tables| && page <= PAGE_TABLE_SIZE
    ensures |r.tables| == |m.tables|
    decreases PAGE_TABLE_SIZE - page, p
  {
    if page == PAGE_TABLE_SIZE then m
    else if page in m.tables[p] then
      Unload(GiveBack(m, p, page), p, page + 1)
    else
      Unload(m, p, page + 1)
  }

  function SwapOut(m: Mem, p: nat): Mem
    requires p < |m.tables|
  {
    Unload(m, p, 0)
  }

  /** Gives p its essential pages from `page` on. */
  function LoadEssential(m: Mem, p: nat, page: nat): (r: Mem)
    requires p < |m.tables| && page <= ESSENTIAL_PAGES <= page + |m.free|
    ensures |r.tables| == |m.tables|
    decreases ESSENTIAL_PAGES - page, p
  {
    if page == ESSENTIAL_PAGES then m else LoadEssential(Load(m, p, page), p, page + 1)
  }

  /** What a search leaves: memory, whether it got through, and how many accesses and faults it made. */
  datatype Touched = Touched(mem: Mem, ok: bool, accesses: nat, faults: nat)

  /** Touches pages in order, loading those that are missing, until no frame is left for one. */
  function Touch(m: Mem, p: nat, pages: seq<nat>): (r: Touched)
    requires p < |m.tables|
    ensures |r.mem.tables| == |m.tables|
    decreases |pages|
  {
    if pages == [] then Touched(m, true, 0, 0)
    else if pages[0] in m.tables[p] then
      var r := Touch(m, p, pages[1..]);
      r.(accesses := r.accesses + 1)
    else if m.free == [] then Touched(m, false, 1, 1)
    else
      var r := Touch(Load(m, p, pages[0]), p, pages[1..]);
      r.(accesses := r.accesses + 1, faults := r.faults + 1)
  }

  // ----- every frame is in exactly one place

  /** `loc` gives the one place of every frame. */
  ghost predicate Places(m: Mem, loc: seq<Place>) {
    && |loc| == USER_FRAMES
    && (forall k | 0 <= k < |m.free| :: m.free[k] < USER_FRAMES && loc[m.free[k]] == InPool(k))
    && (forall p, g | 0 <= p < |m.tables| && g in m.tables[p] ::
          m.tables[p][g] < USER_FRAMES && loc[m.tables[p][g]] == Held(p, g))
    && (forall f | 0 <= f < USER_FRAMES ::
          match loc[f]
          case InPool(k) => k < |m.free| && m.free[k] == f
          case Held(p, g) => p < |m.tables| && g in m.tables[p] && m.tables[p][g] == f)
  }

  ghost predicate Partition(m: Mem) {
    exists loc :: Places(m, loc)
  }

  predicate InTable(m: Mem) {
    forall p, g | 0 <= p < |m.tables| && g in m.tables[p] :: g < PAGE_TABLE_SIZE
  }

  predicate Essential(m: Mem, p: nat)
    requires p < |m.tables|
  {
    forall g | 0 <= g < ESSENTIAL_PAGES :: g in m.tables[p]
  }

  function Fresh(n: nat): Mem {
    Mem(seq(USER_FRAMES, k => k), seq(n, _ => map[]))
  }

  lemma FreshPartition(n: nat)
    ensures Partition(Fresh(n)) && InTable(Fresh(n))
  {
    var loc := seq(USER_FRAMES, (k: nat) => InPool(k));
    assert Places(Fresh(n), loc);
  }

  lemma LoadPartition(m: Mem, p: nat, page: nat)
    requires Partition(m) && p < |m.tables| && m.free != [] && page !in m.tables[p]
    ensures Partition(Load(m, p, page))
  {
    var loc: seq<Place> :| Places(m, loc);
    var f := m.free[|m.free| - 1];
    assert Places(Load(m, p, page), loc[f := Held(p, page)]);
  }

  /** Puts the frame of one of p's pages on top of the pool. */
  function GiveBack(m: Mem, p: nat, page: nat): Mem
    requires p < |m.tables| && page in m.tables[p]
  {
    Mem(m.free + [m.tables[p][page]], m.tables[p := m.tables[p] - {page}])
  }

  /** Page q of p gives its frame to the pool, in place of the frame taken from there for `page`. */
  function Exchange(m: Mem, p: nat, page: nat, q: nat, f: nat): Mem
    requires p < |m.tables| && q in m.tables[p] && f < |m.free|
  {
    var table: map<nat, nat> := (m.tables[p] - {q})[page := m.free[f]];
    Mem(m.free[f := m.tables[p][q]], m.tables[p := table])
  }

  lemma ExchangePartition(m: Mem, p: nat, page: nat, q: nat, f: nat)
    requires Partition(m) && p < |m.tables| && q in m.tables[p] && f < |m.free| && page !in m.tables[p]
    ensures Partition(Exchange(m, p, page, q, f))
  {
    var loc: seq<Place> :| Places(m, loc);
    ExchangePlaces(m, p, page, q, f, loc, loc[m.free[f] := Held(p, page)][m.tables[p][q] := InPool(f)]);
  }

  lemma ExchangePlaces(m: Mem, p: nat, page: nat, q: nat, f: nat, loc: seq<Place>, next: seq<Place>)
    requires Places(m, loc) && p < |m.tables| && q in m.tables[p] && f < |m.free| && page !in m.tables[p]
    requires next == loc[m.free[f] := Held(p, page)][m.tables[p][q] := InPool(f)]
    ensures Places(Exchange(m, p, page, q, f), next)
  {
    var t := Exchange(m, p, page, q, f);
    assert loc[m.free[f]] == InPool(f) && loc[m.tables[p][q]] == Held(p, q);
    forall k | 0 <= k < |t.free|
      ensures t.free[k] < USER_FRAMES && next[t.free[k]] == InPool(k)
    {
      assert k != f ==> loc[m.free[k]] == InPool(k);
    }
  }

  lemma GiveBackPartition(m: Mem, p: nat, page: nat)
    requires Partition(m) && p < |m.tables| && page in m.tables[p]
    ensures Partition(GiveBack(m, p, page))
  {
    var loc: seq<Place> :| Places(m, loc);
    var f := m.tables[p][page];
    assert Places(GiveBack(m, p, page), loc[f := InPool(|m.free|)]);
  }

  lemma {:induction false} UnloadPartition(m: Mem, p: nat, page: nat)
    requires Partition(m) && p < |m.tables| && page <= PAGE_TABLE_SIZE
    ensures Partition(Unload(m, p, page))
    decreases PAGE_TABLE_SIZE - page
  {
    if page < PAGE_TABLE_SIZE {
      if page in m.tables[p] {
        GiveBackPartition(m, p, page);
        UnloadPartition(GiveBack(m, p, page), p, page + 1);
      } else {
        UnloadPartition(m, p, page + 1);
      }
    }
  }

  /** Unloading from `page` on empties the table, and every frame goes to the pool. */
  lemma {:induction false} UnloadTables(m: Mem, p: nat, page: nat)
    requires p < |m.tables| && page <= PAGE_TABLE_SIZE
    requires forall g | g in m.tables[p] :: page <= g < PAGE_TABLE_SIZE
    ensures Unload(m, p, page).tables == m.tables[p := map[]]
    ensures |Unload(m, p, page).free| == |m.free| + |m.tables[p]|
    decreases PAGE_TABLE_SIZE - page
  {
    if page == PAGE_TABLE_SIZE {
      assert m.tables[p] == map[];
      assert m.tables == m.tables[p := map[]];
    } else if page in m.tables[p] {
      var next := GiveBack(m, p, page);
      UnloadTables(next, p, page + 1);
      assert m.tables[p].Keys == next.tables[p].Keys + {page};
      assert next.tables[p := map[]] == m.tables[p := map[]];
    } else {
      UnloadTables(m, p, page + 1);
    }
  }

  /** Swapping a process out empties its table into the pool and keeps every frame in one place. */
  lemma SwapOutFacts(m: Mem, p: nat)
    requires Partition(m) && InTable(m) && p < |m.tables|
    ensures var r := SwapOut(m, p);
            && Partition(r) && InTable(r)
            && r.tables == m.tables[p := map[]]
            && |r.free| == |m.free| + |m.tables[p]|
  {
    UnloadPartition(m, p, 0);
    UnloadTables(m, p, 0);
  }

  lemma {:induction false} LoadEssentialPartition(m: Mem, p: nat, page: nat)
    requires Partition(m) && p < |m.tables| && page <= ESSENTIAL_PAGES <= page + |m.free|
    requires forall g | g in m.tables[p] :: g < page
    ensures Partition(LoadEssential(m, p, page))
    decreases ESSENTIAL_PAGES - page
  {
    if page < ESSENTIAL_PAGES {
      LoadPartition(m, p, page);
      LoadEssentialPartition(Load(m, p, page), p, page + 1);
    }
  }

  lemma {:induction false} LoadEssentialTables(m: Mem, p: nat, page: nat)
    requires p < |m.tables| && page <= ESSENTIAL_PAGES <= page + |m.free|
    requires forall g :: g in m.tables[p] <==> 0 <= g < page
    ensures var r := LoadEssential(m, p, page);
            && (forall g :: g in r.tables[p] <==> 0 <= g < ESSENTIAL_PAGES)
            && r.tables == m.tables[p := r.tables[p]]
            && |r.free| == |m.free| - (ESSENTIAL_PAGES - page)
    decreases ESSENTIAL_PAGES - page
  {
    if page < ESSENTIAL_PAGES {
      LoadEssentialTables(Load(m, p, page), p, page + 1);
    }
  }

  /** A process with an empty table gets exactly its essential pages, off the top of the pool. */
  lemma LoadEssentialFacts(m: Mem, p: nat)
    requires Partition(m) && InTable(m) && p < |m.tables| && ESSENTIAL_PAGES <= |m.free|
    requires m.tables[p] == map[]
    ensures var r := LoadEssential(m, p, 0);
            && Partition(r) && InTable(r) && Essential(r, p)
            && r.tables == m.tables[p := r.tables[p]]
            && |r.free| == |m.free| - ESSENTIAL_PAGES
  {
    LoadEssentialPartition(m, p, 0);
    LoadEssentialTables(m, p, 0);
  }

  /** A search keeps the partition, adds to p's pages only, and when it stops, it is for a page
      that is missing while no frame is free. */
  lemma {:induction false} TouchFacts(m: Mem, p: nat, pages: seq<nat>)
    requires Partition(m) && InTable(m) && p < |m.tables|
    requires forall k | 0 <= k < |pages| :: pages[k] < PAGE_TABLE_SIZE
    ensures var r := Touch(m, p, pages);
            && Partition(r.mem) && InTable(r.mem)
            && r.mem.tables == m.tables[p := r.mem.tables[p]]
            && (forall g | g in m.tables[p] :: g in r.mem.tables[p] && r.mem.tables[p][g] == m.tables[p][g])
            && (if r.ok then forall k | 0 <= k < |pages| :: pages[k] in r.mem.tables[p]
                else r.mem.free == [] && exists k :: 0 <= k < |pages| && pages[k] !in r.mem.tables[p])
    decreases |pages|
  {
    if pages != [] {
      if pages[0] in m.tables[p] {
        TouchFacts(m, p, pages[1..]);
      } else if m.free != [] {
        LoadPartition(m, p, pages[0]);
        TouchFacts(Load(m, p, pages[0]), p, pages[1..]);
      }
    }
  }

  function Missing(m: Mem, p: nat, pages: seq<nat>): set<nat>
    requires p < |m.tables|
  {
    set g | g in pages && g !in m.tables[p]
  }

  /** A search gets through exactly when there is a free frame for every distinct page it misses,
      and it then makes that many faults and takes that many frames. */
  lemma {:induction false} TouchNeedsMissing(m: Mem, p: nat, pages: seq<nat>)
    requires p < |m.tables|
    ensures var r := Touch(m, p, pages);
            && (r.ok <==> |Missing(m, p, pages)| <= |m.free|)
            && (r.ok ==> r.accesses == |pages| && r.faults == |Missing(m, p, pages)|
                         && |r.mem.free| == |m.free| - |Missing(m, p, pages)|)
    decreases |pages|
  {
    if pages == [] {
      assert Missing(m, p, pages) == {};
    } else if pages[0] in m.tables[p] {
      TouchNeedsMissing(m, p, pages[1..]);
      assert Missing(m, p, pages) == Missing(m, p, pages[1..]);
    } else {
      assert pages[0] in Missing(m, p, pages);
      if m.free != [] {
        var next := Load(m, p, pages[0]);
        TouchNeedsMissing(next, p, pages[1..]);
        assert Missing(m, p, pages) == Missing(next, p, pages[1..]) + {pages[0]};
      }
    }
  }

  /** The frames for the pages missed come off the top of the pool. */
  lemma {:induction false} TouchTakesTop(m: Mem, p: nat, pages: seq<nat>)
    requires p < |m.tables|
    ensures var r := Touch(m, p, pages);
            |r.mem.free| <= |m.free| && r.mem.free == m.free[..|r.mem.free|]
    decreases |pages|
  {
    if pages != [] {
      if pages[0] in m.tables[p] {
        TouchTakesTop(m, p, pages[1..]);
      } else if m.free != [] {
        TouchTakesTop(Load(m, p, pages[0]), p, pages[1..]);
      }
    }
  }

  /** The essential pages are given the frames on top of the pool, page by page. */
  lemma {:induction false} EssentialFromTop(m: Mem, p: nat, page: nat, g: nat)
    requires p < |m.tables| && page <= ESSENTIAL_PAGES <= page + |m.free|
    ensures var r := LoadEssential(m, p, page);
            && r.free == m.free[..|m.free| - (ESSENTIAL_PAGES - page)]
            && (page <= g < ESSENTIAL_PAGES ==> g in r.tables[p] && r.tables[p][g] == m.free[|m.free| - 1 - (g - page)])
            && (g < page && g in m.tables[p] ==> g in r.tables[p] && r.tables[p][g] == m.tables[p][g])
    decreases ESSENTIAL_PAGES - page
  {
    if page < ESSENTIAL_PAGES {
      EssentialFromTop(Load(m, p, page), p, page + 1, g);
    }
  }

  /** Frames go back to the pool in the order of their pages. */
  lemma {:induction false} UnloadInOrder(m: Mem, p: nat, page: nat) returns (pages: seq<nat>)
    requires p < |m.tables| && page <= PAGE_TABLE_SIZE
    requires forall g | g in m.tables[p] :: page <= g < PAGE_TABLE_SIZE
    ensures (forall g :: g in pages <==> g in m.tables[p]) && (forall a, b | 0 <= a < b < |pages| :: pages[a] < pages[b])
    ensures Unload(m, p, page).free == m.free + seq(|pages|, k requires 0 <= k < |pages| => m.tables[p][pages[k]])
    decreases PAGE_TABLE_SIZE - page
  {
    pages := [];
    if page < PAGE_TABLE_SIZE {
      if page in m.tables[p] {
        var more := UnloadInOrder(GiveBack(m, p, page), p, page + 1);
        assert forall k | 0 <= k < |more| :: more[k] in more;
        pages := [page] + more;
        FramesInOrder(m, p, page, more);
      } else {
        pages := UnloadInOrder(m, p, page + 1);
      }
    }
  }

  lemma FramesInOrder(m: Mem, p: nat, page: nat, more: seq<nat>)
    requires p < |m.tables| && page in m.tables[p] && forall g | g in more :: g in m.tables[p] && g != page
    ensures var pages, t := [page] + more, GiveBack(m, p, page);
            m.free + seq(|pages|, k requires 0 <= k < |pages| => m.tables[p][pages[k]])
            == t.free + seq(|more|, k requires 0 <= k < |more| => t.tables[p][more[k]])
  {
  }

  /** The k-th page is missing, and those before it have taken all free frames. */
  predicate StopsAt(m: Mem, p: nat, pages: seq<nat>, k: nat)
    requires p < |m.tables|
  {
    k < |pages| && pages[k] !in m.tables[p] && pages[k] !in pages[..k] && |Missing(m, p, pages[..k])| == |m.free|
  }

  /** A search that gets through adds just the pages it missed; one that does not stops at the first that is
      missing with no frame left, having made one access for each page up to there and a fault for it. */
  lemma {:induction false} TouchStops(m: Mem, p: nat, pages: seq<nat>) returns (k: nat)
    requires p < |m.tables|
    ensures var r := Touch(m, p, pages);
            && (r.ok ==> r.mem.tables[p].Keys == m.tables[p].Keys + Missing(m, p, pages))
            && (!r.ok ==> StopsAt(m, p, pages, k) && r.accesses == k + 1 && r.faults == |m.free| + 1)
    decreases |pages|
  {
    k := 0;
    if pages == [] {
      assert Missing(m, p, pages) == {};
    } else if pages[0] in m.tables[p] {
      k := TouchStops(m, p, pages[1..]);
      assert Missing(m, p, pages) == Missing(m, p, pages[1..]);
      if !Touch(m, p, pages).ok {
        StopsLater(m, m, p, pages, k);
        k := k + 1;
      }
    } else if m.free == [] {
      assert Missing(m, p, pages[..0]) == {};
    } else {
      var next := Load(m, p, pages[0]);
      k := TouchStops(next, p, pages[1..]);
      assert Missing(m, p, pages) == Missing(next, p, pages[1..]) + {pages[0]};
      if !Touch(m, p, pages).ok {
        StopsLater(m, next, p, pages, k);
        k := k + 1;
      }
    }
  }

  lemma StopsLater(m: Mem, next: Mem, p: nat, pages: seq<nat>, k: nat)
    requires p < |m.tables| && p < |next.tables| && pages != [] && StopsAt(next, p, pages[1..], k)
    requires if pages[0] in m.tables[p] then next == m else m.free != [] && next == Load(m, p, pages[0])
    ensures StopsAt(m, p, pages, k + 1)
  {
    var some := pages[..k + 1];
    assert some == [pages[0]] + pages[1..][..k] && pages[k + 1] == pages[1..][k];
    if pages[0] in m.tables[p] {
      assert Missing(m, p, some) == Missing(next, p, pages[1..][..k]);
    } else {
      assert Missing(m, p, some) == Missing(next, p, pages[1..][..k]) + {pages[0]};
    }
  }

  // ----- the pigeonhole

  /** When no frame is free, all frames are behind the pages of the holders; a page missing from one
      of them leaves a slot empty, so the holders' tables are together larger than memory. */
  lemma FullMemoryHasManyHolders(m: Mem, holders: seq<nat>, page: nat)
    requires Partition(m) && InTable(m) && m.free == []
    requires holders != [] && forall k | 0 <= k < |holders| :: holders[k] < |m.tables|
    requires forall p | 0 <= p < |m.tables| && p !in holders :: m.tables[p] == map[]
    requires page < PAGE_TABLE_SIZE && page !in m.tables[holders[0]]
    ensures USER_FRAMES < |holders| * PAGE_TABLE_SIZE
  {
    var loc: seq<Place> :| Places(m, loc);
    var who: seq<nat> := seq(USER_FRAMES, (f: nat) requires 0 <= f < USER_FRAMES => HolderOf(m, loc, holders, f));
    var codes: seq<nat> := seq(USER_FRAMES, (f: nat) requires 0 <= f < USER_FRAMES => who[f] * PAGE_TABLE_SIZE + loc[f].page);
    forall f | 0 <= f < USER_FRAMES
      ensures codes[f] < |holders| * PAGE_TABLE_SIZE && codes[f] != page
    {
    }
    forall a, b | 0 <= a < b < USER_FRAMES
      ensures codes[a] != codes[b]
    {
    }
    Crowd(codes + [page], |holders| * PAGE_TABLE_SIZE);
  }

  ghost function HolderOf(m: Mem, loc: seq<Place>, holders: seq<nat>, f: nat): (k: nat)
    requires Places(m, loc) && m.free == [] && f < USER_FRAMES
    requires forall p | 0 <= p < |m.tables| && p !in holders :: m.tables[p] == map[]
    ensures loc[f].Held? && k < |holders| && holders[k] == loc[f].p
  {
    assert loc[f].Held?;
    assert loc[f].p in holders;
    var k :| 0 <= k < |holders| && holders[k] == loc[f].p;
    k
  }

  /** The pool has room for every frame that is behind a page. */
  lemma RoomInPool(m: Mem, p: nat, page: nat)
    requires Partition(m) && p < |m.tables| && page in m.tables[p]
    ensures |m.free| < USER_FRAMES
  {
    var loc: seq<Place> :| Places(m, loc);
    var f := m.tables[p][page];
    forall a, b | 0 <= a < b < |m.free|
      ensures m.free[a] != m.free[b]
    {
      assert loc[m.free[a]] == InPool(a) && loc[m.free[b]] == InPool(b);
    }
    Crowd(m.free + [f], USER_FRAMES);
  }

  /** With every table empty, the whole of memory is in the pool. */
  lemma EmptyTablesFillThePool(m: Mem)
    requires Partition(m) && forall p | 0 <= p < |m.tables| :: m.tables[p] == map[]
    ensures |m.free| == USER_FRAMES
  {
    var loc: seq<Place> :| Places(m, loc);
    forall a, b | 0 <= a < b < |m.free|
      ensures m.free[a] != m.free[b]
    {
      assert loc[m.free[a]] == InPool(a) && loc[m.free[b]] == InPool(b);
    }
    Crowd(m.free, USER_FRAMES);
    forall f: nat | f < USER_FRAMES
      ensures loc[f].InPool? && loc[f].k < |m.free| && m.free[loc[f].k] == f
    {
    }
    Crowd(seq(USER_FRAMES, (f: nat) requires f < USER_FRAMES => loc[f].k), |m.free|);
  }
}
