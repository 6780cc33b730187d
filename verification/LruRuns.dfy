/** Whole runs of the page-replacement simulator, and what every state in them has. */
module LruRuns {
  import opened Options
  import opened SearchTrace
  import opened History
  import opened LruSpec
  import PS = PagingSpec

  // ----- frames

  /** The frames of a kernel, without tags, bits and histories. */
  function Frames(k: Kernel): PS.Mem {
    PS.Mem(seq(|k.free|, i requires 0 <= i < |k.free| => k.free[i].fno),
           seq(|k.tables|, p requires 0 <= p < |k.tables| => FrameMap(k.tables[p])))
  }

  function FrameMap(t: map<nat, Slot>): map<nat, nat> {
    map g | g in t :: t[g].frame
  }

  predicate Shape(k: Kernel, n: nat) {
    && |k.tables| == |k.stats| == n && |k.content| == NFRAMES
    && (forall f | 0 <= f < |k.free| :: k.free[f].fno < NFRAMES)
    && (forall p, g | 0 <= p < n && g in k.tables[p] :: k.tables[p][g].frame < NFRAMES && g < PAGE_TABLE_SIZE)
  }

  /** Every frame is in exactly one place. */
  ghost predicate Whole(k: Kernel, n: nat) {
    Shape(k, n) && PS.Partition(Frames(k))
  }

  lemma FramesLoadFree(k: Kernel, p: nat, page: nat)
    requires Sized(k, p) && k.free != []
    ensures Frames(LoadFree(k, p, page)) == PS.Load(Frames(k), p, page)
  {
    var t := LoadFree(k, p, page);
    assert FrameMap(t.tables[p]) == FrameMap(k.tables[p])[page := k.free[|k.free| - 1].fno];
    assert Frames(t).tables == PS.Load(Frames(k), p, page).tables;
  }

  lemma FramesReplace(k: Kernel, p: nat, page: nat, q: nat, c: Choice)
    requires Sized(k, p) && q in k.tables[p] && c.f < |k.free| && page != q
    ensures Frames(Replace(k, p, page, q, c)) == PS.Exchange(Frames(k), p, page, q, c.f)
  {
    var t := Replace(k, p, page, q, c);
    assert FrameMap(t.tables[p]) == (FrameMap(k.tables[p]) - {q})[page := k.free[c.f].fno];
    assert Frames(t).tables == PS.Exchange(Frames(k), p, page, q, c.f).tables;
    assert Frames(t).free == PS.Exchange(Frames(k), p, page, q, c.f).free;
  }

  lemma FramesRefer(k: Kernel, p: nat, page: nat)
    requires p < |k.tables| && page in k.tables[p]
    ensures Frames(Refer(k, p, page)) == Frames(k)
  {
    assert FrameMap(Refer(k, p, page).tables[p]) == FrameMap(k.tables[p]);
  }

  /** An access keeps every frame in one place. */
  lemma AccessWhole(k: Kernel, n: nat, p: nat, page: nat, draw: nat)
    requires Whole(k, n) && p < n && page < PAGE_TABLE_SIZE && Access(k, p, page, draw).Some?
    ensures Whole(Access(k, p, page, draw).value, n)
  {
    if page in k.tables[p] {
      var k1 := Count(k, p, false);
      assert Frames(k1) == Frames(k);
      FramesRefer(k1, p, page);
    } else {
      var k1 := Count(k, p, true);
      assert Frames(k1) == Frames(k);
      if |k.free| > NFFMIN {
        FramesLoadFree(k1, p, page);
        PS.LoadPartition(Frames(k), p, page);
      } else {
        var q := Victim(k.tables[p]).value;
        var c := Choose(k.free, p, page, draw);
        ChoiceIsBest(k.free, p, page, draw);
        FramesReplace(k1, p, page, q, c);
        PS.ExchangePartition(Frames(k), p, page, q, c.f);
      }
    }
  }

  // ----- the floor, and the essential pages

  /** An access takes a frame from the pool only above the floor. */
  lemma AccessFloor(k: Kernel, n: nat, p: nat, page: nat, draw: nat)
    requires Shape(k, n) && p < n && Access(k, p, page, draw).Some?
    ensures var t := Access(k, p, page, draw).value;
            |t.free| == if page !in k.tables[p] && |k.free| > NFFMIN then |k.free| - 1 else |k.free|
  {
  }

  /** An access to a data page keeps every other process's pages, and p's essential pages, where they
      were; p ends with the page resident and never with fewer data pages. */
  lemma AccessTables(k: Kernel, n: nat, p: nat, page: nat, draw: nat)
    requires Shape(k, n) && p < n && ESSENTIAL_PAGES <= page < PAGE_TABLE_SIZE && Access(k, p, page, draw).Some?
    ensures var t := Access(k, p, page, draw).value;
            && |t.tables| == n
            && (forall o | 0 <= o < n && o != p :: t.tables[o] == k.tables[o])
            && (forall g | 0 <= g < ESSENTIAL_PAGES :: g in t.tables[p] <==> g in k.tables[p])
            && (forall g | 0 <= g < ESSENTIAL_PAGES && g in k.tables[p] :: t.tables[p][g] == k.tables[p][g])
            && page in t.tables[p]
  {
    VictimFacts(k.tables[p]);
  }

  // ----- tags

  /** A tag tells the truth: the frame still holds the page it names. */
  predicate TagTrue(k: Kernel, e: FreeFrame)
    requires e.fno < |k.content|
  {
    e.owner == -1 || (e.owner >= 0 && e.pno >= 0 && k.content[e.fno] == Page(e.owner, e.pno))
  }

  /** Every resident page is in its frame, and every tag tells the truth. */
  predicate Truthful(k: Kernel, n: nat) {
    && Shape(k, n)
    && (forall f | 0 <= f < |k.free| :: TagTrue(k, k.free[f]))
    && (forall p, g | 0 <= p < n && g in k.tables[p] :: k.content[k.tables[p][g].frame] == Page(p, g))
  }

  /** No frame is in two places (what Whole gives, in the form needed here). */
  lemma WholeIsDistinct(k: Kernel, n: nat)
    requires Whole(k, n)
    ensures forall a, b | 0 <= a < b < |k.free| :: k.free[a].fno != k.free[b].fno
    ensures forall f, p, g | 0 <= f < |k.free| && 0 <= p < n && g in k.tables[p] :: k.free[f].fno != k.tables[p][g].frame
    ensures forall p, g, o, h | 0 <= p < n && 0 <= o < n && g in k.tables[p] && h in k.tables[o] && (p != o || g != h) ::
              k.tables[p][g].frame != k.tables[o][h].frame
  {
    var m := Frames(k);
    var loc: seq<PS.Place> :| PS.Places(m, loc);
    assert forall a | 0 <= a < |k.free| :: m.free[a] == k.free[a].fno && loc[m.free[a]] == PS.InPool(a);
    assert forall p, g | 0 <= p < n && g in k.tables[p] ::
        g in m.tables[p] && m.tables[p][g] == k.tables[p][g].frame && loc[m.tables[p][g]] == PS.Held(p, g);
  }

  /** When the first attempt succeeds, the page mapped is the page asked for, without reading it. */
  lemma FirstAttemptIsRight(k: Kernel, n: nat, p: nat, page: nat, draw: nat)
    requires Truthful(k, n) && k.free != [] && Choose(k.free, p, page, draw).attempt == 1
    ensures k.content[k.free[Choose(k.free, p, page, draw).f].fno] == Page(p, page)
  {
    ChoiceIsBest(k.free, p, page, draw);
    assert TagTrue(k, k.free[Choose(k.free, p, page, draw).f]);
  }

  lemma LoadFreeTruthful(k: Kernel, n: nat, p: nat, page: nat)
    requires Whole(k, n) && Truthful(k, n) && p < n && page < PAGE_TABLE_SIZE && k.free != [] && page !in k.tables[p]
    ensures Truthful(LoadFree(k, p, page), n)
  {
    WholeIsDistinct(k, n);
  }

  lemma ReplaceTruthful(k: Kernel, n: nat, p: nat, page: nat, q: nat, draw: nat)
    requires Whole(k, n) && Truthful(k, n) && p < n && page < PAGE_TABLE_SIZE && k.free != []
    requires page !in k.tables[p] && q in k.tables[p]
    ensures Truthful(Replace(k, p, page, q, Choose(k.free, p, page, draw)), n)
  {
    WholeIsDistinct(k, n);
    ChoiceIsBest(k.free, p, page, draw);
    var c := Choose(k.free, p, page, draw);
    if c.attempt == 1 {
      FirstAttemptIsRight(k, n, p, page, draw);
    }
    var t := Replace(k, p, page, q, c);
    assert TagTrue(t, t.free[c.f]);
    forall f | 0 <= f < |k.free| && f != c.f
      ensures TagTrue(t, t.free[f])
    {
      assert TagTrue(k, k.free[f]) && t.free[f] == k.free[f];
    }
  }

  /** Tags stay true. */
  lemma AccessTruthful(k: Kernel, n: nat, p: nat, page: nat, draw: nat)
    requires Whole(k, n) && Truthful(k, n) && p < n && page < PAGE_TABLE_SIZE && Access(k, p, page, draw).Some?
    ensures Truthful(Access(k, p, page, draw).value, n)
  {
    if page !in k.tables[p] {
      var k1 := Count(k, p, true);
      assert Frames(k1) == Frames(k);
      assert forall f | 0 <= f < |k.free| :: TagTrue(k, k.free[f]) && TagTrue(k1, k1.free[f]);
      if |k.free| > NFFMIN {
        LoadFreeTruthful(k1, n, p, page);
      } else {
        ReplaceTruthful(k1, n, p, page, Victim(k.tables[p]).value, draw);
      }
    } else {
      var t := Access(k, p, page, draw).value;
      assert forall f | 0 <= f < |k.free| :: TagTrue(k, k.free[f]) && t.free[f] == k.free[f];
    }
  }

  // ----- histories and counters

  /** The history of a data page is the value of its record. */
  predicate Recorded(k: Kernel) {
    forall p, g | 0 <= p < |k.tables| && g in k.tables[p] && ESSENTIAL_PAGES <= g ::
      k.tables[p][g].hist == Value(Window(k.tables[p][g].record))
  }

  lemma AccessRecorded(k: Kernel, n: nat, p: nat, page: nat, draw: nat)
    requires Shape(k, n) && p < n && Access(k, p, page, draw).Some? && Recorded(k)
    ensures Recorded(Access(k, p, page, draw).value)
  {
    FullHistory([]);
  }

  /** Replacements are the sum of the four attempts. */
  predicate Counted(k: Kernel) {
    forall p | 0 <= p < |k.stats| ::
      var s := k.stats[p];
      s.replacements == s.attempt1 + s.attempt2 + s.attempt3 + s.attempt4 && s.replacements <= s.faults <= s.accesses
  }

  lemma AccessCounted(k: Kernel, n: nat, p: nat, page: nat, draw: nat)
    requires Shape(k, n) && p < n && Access(k, p, page, draw).Some? && Counted(k)
    ensures Counted(Access(k, p, page, draw).value)
  {
    assert k.stats[p].replacements <= k.stats[p].faults;
    if page !in k.tables[p] && |k.free| <= NFFMIN {
      ChoiceIsBest(k.free, p, page, draw);
    }
  }

  // ----- the end of a search

  function AgedSlot(g: nat, s: Slot): Slot {
    if g < ESSENTIAL_PAGES then s else Slot(s.frame, false, Aged(s.hist, s.ref), [s.ref] + s.record)
  }

  /** Shifts every data page's reference bit into its history. */
  function Age(k: Kernel, p: nat): Kernel
    requires p < |k.tables|
  {
    k.(tables := k.tables[p := map g | g in k.tables[p] :: AgedSlot(g, k.tables[p][g])])
  }

  lemma AgeKeeps(k: Kernel, n: nat, p: nat)
    requires Whole(k, n) && Truthful(k, n) && Recorded(k) && Counted(k) && p < n
    ensures var t := Age(k, p); Whole(t, n) && Truthful(t, n) && Recorded(t) && Counted(t)
  {
    var t := Age(k, p);
    assert FrameMap(t.tables[p]) == FrameMap(k.tables[p]);
    assert Frames(t).tables == Frames(k).tables;
    assert forall f | 0 <= f < |k.free| :: TagTrue(k, k.free[f]) && TagTrue(t, t.free[f]);
    forall g | g in t.tables[p] && ESSENTIAL_PAGES <= g
      ensures t.tables[p][g].hist == Value(Window(t.tables[p][g].record))
    {
      AgedIsRecorded(k.tables[p][g].record, k.tables[p][g].ref);
    }
  }

  /** Gives back p's frames from `page` on, in page order, owned by nobody. */
  function ReleaseFrom(k: Kernel, p: nat, page: nat): (r: Kernel)
    requires p < |k.tables| && page <= PAGE_TABLE_SIZE
    ensures |r.tables| == |k.tables|
    decreases PAGE_TABLE_SIZE - page, p
  {
    if page == PAGE_TABLE_SIZE then k
    else if page in k.tables[p] then ReleaseFrom(ReleaseOne(k, p, page), p, page + 1)
    else ReleaseFrom(k, p, page + 1)
  }

  function ReleaseOne(k: Kernel, p: nat, page: nat): Kernel
    requires p < |k.tables| && page in k.tables[p]
  {
    k.(free := k.free + [FF(k.tables[p][page].frame, -1, -1)], tables := k.tables[p := k.tables[p] - {page}])
  }

  function Release(k: Kernel, p: nat): Kernel
    requires p < |k.tables|
  {
    ReleaseFrom(k, p, 0)
  }

  lemma ReleaseOneKeeps(k: Kernel, n: nat, p: nat, page: nat)
    requires Whole(k, n) && Truthful(k, n) && Recorded(k) && Counted(k) && p < n && page in k.tables[p]
    ensures var t := ReleaseOne(k, p, page); Whole(t, n) && Truthful(t, n) && Recorded(t) && Counted(t)
  {
    var t := ReleaseOne(k, p, page);
    assert FrameMap(t.tables[p]) == FrameMap(k.tables[p]) - {page};
    assert Frames(t).tables == PS.GiveBack(Frames(k), p, page).tables;
    assert Frames(t).free == PS.GiveBack(Frames(k), p, page).free;
    PS.GiveBackPartition(Frames(k), p, page);
    assert forall f | 0 <= f < |k.free| :: TagTrue(k, k.free[f]) && t.free[f] == k.free[f];
  }

  lemma {:induction false} ReleaseFromKeeps(k: Kernel, n: nat, p: nat, page: nat)
    requires Whole(k, n) && Truthful(k, n) && Recorded(k) && Counted(k) && p < n && page <= PAGE_TABLE_SIZE
    ensures var t := ReleaseFrom(k, p, page); Whole(t, n) && Truthful(t, n) && Recorded(t) && Counted(t)
    decreases PAGE_TABLE_SIZE - page
  {
    if page < PAGE_TABLE_SIZE {
      if page in k.tables[p] {
        ReleaseOneKeeps(k, n, p, page);
        ReleaseFromKeeps(ReleaseOne(k, p, page), n, p, page + 1);
      } else {
        ReleaseFromKeeps(k, n, p, page + 1);
      }
    }
  }

  lemma {:induction false} ReleaseFromTables(k: Kernel, p: nat, page: nat)
    requires p < |k.tables| && page <= PAGE_TABLE_SIZE
    requires forall g | g in k.tables[p] :: page <= g < PAGE_TABLE_SIZE
    ensures var t := ReleaseFrom(k, p, page); t.tables == k.tables[p := map[]] && |t.free| >= |k.free|
    decreases PAGE_TABLE_SIZE - page
  {
    if page == PAGE_TABLE_SIZE {
      assert k.tables[p] == map[];
      assert k.tables == k.tables[p := map[]];
    } else if page in k.tables[p] {
      var next := ReleaseOne(k, p, page);
      ReleaseFromTables(next, p, page + 1);
      assert next.tables[p := map[]] == k.tables[p := map[]];
    } else {
      ReleaseFromTables(k, p, page + 1);
    }
  }

  // ----- one search

  /** The accesses of one search, in order; draws holds what rand() gives at each access. */
  function Search(k: Kernel, n: nat, p: nat, pages: seq<nat>, draws: seq<nat>): (r: Option<Kernel>)
    requires p < n && |draws| == |pages|
    decreases |pages|
  {
    if pages == [] then Some(k)
    else if !Shape(k, n) then None
    else
      match Access(k, p, pages[0], draws[0])
      case None => None
      case Some(k1) => Search(k1, n, p, pages[1..], draws[1..])
  }

  /** A search in two parts. */
  lemma {:induction false} SearchAppend(k: Kernel, n: nat, p: nat, pages: seq<nat>, draws: seq<nat>, more: seq<nat>, drawn: seq<nat>)
    requires p < n && |draws| == |pages| && |drawn| == |more|
    ensures Search(k, n, p, pages + more, draws + drawn) ==
            match Search(k, n, p, pages, draws) case None => None case Some(k1) => Search(k1, n, p, more, drawn)
    decreases |pages|
  {
    if pages == [] {
      assert pages + more == more && draws + drawn == drawn;
    } else {
      assert (pages + more)[1..] == pages[1..] + more && (draws + drawn)[1..] == draws[1..] + drawn;
      if Shape(k, n) && Access(k, p, pages[0], draws[0]).Some? {
        SearchAppend(Access(k, p, pages[0], draws[0]).value, n, p, pages[1..], draws[1..], more, drawn);
      }
    }
  }

  /** What holds in every state of the kernel. */
  ghost predicate Sound(k: Kernel, n: nat) {
    Whole(k, n) && Truthful(k, n) && Recorded(k) && Counted(k)
  }

  predicate DataTrace(pages: seq<nat>) {
    forall i | 0 <= i < |pages| :: ESSENTIAL_PAGES <= pages[i] < PAGE_TABLE_SIZE
  }

  lemma AccessSound(k: Kernel, n: nat, p: nat, page: nat, draw: nat)
    requires Sound(k, n) && p < n && page < PAGE_TABLE_SIZE && Access(k, p, page, draw).Some?
    ensures Sound(Access(k, p, page, draw).value, n)
  {
    AccessWhole(k, n, p, page, draw);
    AccessTruthful(k, n, p, page, draw);
    AccessRecorded(k, n, p, page, draw);
    AccessCounted(k, n, p, page, draw);
  }

  /** The pages p and only p gains or loses in a search; its essential pages stay where they are. */
  predicate OnlyDataMoved(k: Kernel, t: Kernel, n: nat, p: nat) {
    && |k.tables| == |t.tables| == n && p < n
    && (forall o | 0 <= o < n && o != p :: t.tables[o] == k.tables[o])
    && (forall g | 0 <= g < ESSENTIAL_PAGES :: g in t.tables[p] <==> g in k.tables[p])
    && (forall g | 0 <= g < ESSENTIAL_PAGES && g in k.tables[p] :: t.tables[p][g] == k.tables[p][g])
  }

  lemma {:induction false} SearchSound(k: Kernel, n: nat, p: nat, pages: seq<nat>, draws: seq<nat>)
    requires Sound(k, n) && p < n && |draws| == |pages| && DataTrace(pages)
    requires Search(k, n, p, pages, draws).Some?
    ensures Sound(Search(k, n, p, pages, draws).value, n)
    ensures OnlyDataMoved(k, Search(k, n, p, pages, draws).value, n, p)
    decreases |pages|
  {
    if pages != [] {
      AccessSound(k, n, p, pages[0], draws[0]);
      AccessTables(k, n, p, pages[0], draws[0]);
      SearchSound(Access(k, p, pages[0], draws[0]).value, n, p, pages[1..], draws[1..]);
    }
  }

  /** At or below the floor a search takes nothing from the pool; above it, it stops at the floor. */
  lemma {:induction false} SearchFloor(k: Kernel, n: nat, p: nat, pages: seq<nat>, draws: seq<nat>)
    requires p < n && |draws| == |pages| && Search(k, n, p, pages, draws).Some?
    ensures var t := Search(k, n, p, pages, draws).value;
            |t.free| <= |k.free| && (if |k.free| <= NFFMIN then |t.free| == |k.free| else |t.free| >= NFFMIN)
    decreases |pages|
  {
    if pages != [] {
      AccessFloor(k, n, p, pages[0], draws[0]);
      SearchFloor(Access(k, p, pages[0], draws[0]).value, n, p, pages[1..], draws[1..]);
    }
  }

  function Missing(k: Kernel, p: nat, pages: seq<nat>): set<nat>
    requires p < |k.tables|
  {
    set g | g in pages && g !in k.tables[p]
  }

  lemma AccessAboveFloor(k: Kernel, n: nat, p: nat, page: nat, draw: nat)
    requires Shape(k, n) && p < n && |k.free| > NFFMIN
    ensures Access(k, p, page, draw).Some?
    ensures var t := Access(k, p, page, draw).value;
            && |t.tables| == n && t.tables[p].Keys == k.tables[p].Keys + {page}
            && |t.free| == |k.free| - (if page in k.tables[p] then 0 else 1)
  {
  }

  lemma MissingAfter(k: Kernel, t: Kernel, p: nat, pages: seq<nat>)
    requires pages != [] && p < |k.tables| && p < |t.tables| && t.tables[p].Keys == k.tables[p].Keys + {pages[0]}
    ensures |Missing(k, p, pages)| == |Missing(t, p, pages[1..])| + (if pages[0] in k.tables[p] then 0 else 1)
  {
    var rest := Missing(t, p, pages[1..]);
    if pages[0] in k.tables[p] {
      assert Missing(k, p, pages) == rest;
    } else {
      assert Missing(k, p, pages) == rest + {pages[0]};
    }
  }

  /** A search takes at most one frame from the pool for each distinct page it misses. */
  lemma {:induction false} SearchDrop(k: Kernel, n: nat, p: nat, pages: seq<nat>, draws: seq<nat>)
    requires |k.tables| == n && p < n && |draws| == |pages| && Search(k, n, p, pages, draws).Some?
    ensures |Search(k, n, p, pages, draws).value.free| >= |k.free| - |Missing(k, p, pages)|
    decreases |pages|
  {
    if |k.free| <= NFFMIN {
      SearchFloor(k, n, p, pages, draws);
    } else if pages != [] {
      var k1 := Access(k, p, pages[0], draws[0]).value;
      AccessAboveFloor(k, n, p, pages[0], draws[0]);
      SearchDrop(k1, n, p, pages[1..], draws[1..]);
      MissingAfter(k, k1, p, pages);
    }
  }

  // ----- a victim always exists

  ghost predicate HasData(k: Kernel, p: nat)
    requires p < |k.tables|
  {
    exists g :: DataPage(k.tables[p], g)
  }

  /** An access fails exactly when the page is missing, the pool is at the floor, and the process has
      no data page to give up or there is no free frame at all. */
  lemma AccessFailsWhen(k: Kernel, n: nat, p: nat, page: nat, draw: nat)
    requires Shape(k, n) && p < n
    ensures Access(k, p, page, draw) == None <==>
              page !in k.tables[p] && |k.free| <= NFFMIN && (!HasData(k, p) || k.free == [])
  {
    VictimFacts(k.tables[p]);
  }

  /** A search goes through if it can make its first load: later ones have a victim. */
  lemma {:induction false} SearchGoesThrough(k: Kernel, n: nat, p: nat, pages: seq<nat>, draws: seq<nat>)
    requires Sound(k, n) && p < n && |draws| == |pages| && DataTrace(pages)
    requires |k.free| > NFFMIN || (HasData(k, p) && k.free != [])
    ensures Search(k, n, p, pages, draws).Some? && |Search(k, n, p, pages, draws).value.tables| == n
    ensures pages != [] || HasData(k, p) ==> HasData(Search(k, n, p, pages, draws).value, p)
    decreases |pages|
  {
    if pages != [] {
      var page := pages[0];
      AccessFailsWhen(k, n, p, page, draws[0]);
      AccessSound(k, n, p, page, draws[0]);
      AccessTables(k, n, p, page, draws[0]);
      AccessFloor(k, n, p, page, draws[0]);
      var k1 := Access(k, p, page, draws[0]).value;
      assert DataPage(k1.tables[p], page);
      SearchGoesThrough(k1, n, p, pages[1..], draws[1..]);
    }
  }
}
