/** What becomes of the processes of the simulator that drops them, without frames, tags and draws: sizes and
    searches decide it. */
module LruFate {
  import opened Options
  import opened SearchTrace
  import opened History
  import opened LruSpec
  import opened LruRuns
  import opened LruVariant
  import opened LruVariantRuns
  import LS = LruSystem
  import LT = LruTheorems
  import PR = PagingRuns

  /** What matters of a resident page. */
  datatype Mark = Mark(ref: bool, hist: nat)

  /** How many frames are free, and which pages are resident. */
  datatype Bare = Bare(free: nat, tables: seq<map<nat, Mark>>)

  function Marks(t: map<nat, Slot>): map<nat, Mark> {
    map g | g in t :: Mark(t[g].ref, t[g].hist)
  }

  function BareOf(k: Kernel): Bare {
    Bare(|k.free|, seq(|k.tables|, p requires 0 <= p < |k.tables| => Marks(k.tables[p])))
  }

  // ----- an access and a search

  /** The lowest-numbered page from j on with the smallest history below the full one. */
  function LeastMark(t: map<nat, Mark>, j: nat): (r: Option<nat>)
    requires j <= PAGE_TABLE_SIZE
    ensures r.Some? ==> r.value in t
    decreases PAGE_TABLE_SIZE - j, |t|
  {
    if j == PAGE_TABLE_SIZE then None
    else
      var rest := LeastMark(t, j + 1);
      if j in t && t[j].hist < FULL && (rest == None || t[j].hist <= t[rest.value].hist) then Some(j) else rest
  }

  lemma {:induction false} SameLeast(t: map<nat, Slot>, j: nat)
    requires j <= PAGE_TABLE_SIZE
    ensures LeastMark(Marks(t), j) == LT.StrictFrom(t, j)
    decreases PAGE_TABLE_SIZE - j
  {
    if j < PAGE_TABLE_SIZE {
      SameLeast(t, j + 1);
    }
  }

  datatype Result = Result(b: Bare, ok: bool)

  function SetTable(b: Bare, p: nat, t: map<nat, Mark>): Bare
    requires p < |b.tables|
  {
    b.(tables := b.tables[p := t])
  }

  function BareAccess(b: Bare, p: nat, page: nat): (r: Result)
    requires p < |b.tables|
    ensures |r.b.tables| == |b.tables|
  {
    var t := b.tables[p];
    if page in t then Result(SetTable(b, p, t[page := t[page].(ref := true)]), true)
    else if b.free > NFFMIN then Result(SetTable(b, p, t[page := Mark(true, FULL)]).(free := b.free - 1), true)
    else
      match LeastMark(t, ESSENTIAL_PAGES)
      case None => Result(b, false)
      case Some(q) => Result(SetTable(b, p, (t - {q})[page := Mark(true, FULL)]), true)
  }

  lemma BareWith(k: Kernel, t: Kernel, p: nat)
    requires p < |k.tables| == |t.tables| && forall o | 0 <= o < |k.tables| && o != p :: t.tables[o] == k.tables[o]
    ensures BareOf(t) == SetTable(BareOf(k), p, Marks(t.tables[p])).(free := |t.free|)
  {
    assert BareOf(t).tables == BareOf(k).tables[p := Marks(t.tables[p])];
  }

  /** Whatever is drawn, an access comes to this. */
  lemma AccessBare(k: Kernel, p: nat, page: nat, draw: nat)
    requires Sized(k, p) && k.free != []
    ensures var r := VAccess(k, p, page, draw); BareAccess(BareOf(k), p, page) == Result(BareOf(r.k), r.ok)
  {
    var r := VAccess(k, p, page, draw);
    var t := k.tables[p];
    SameLeast(t, ESSENTIAL_PAGES);
    BareWith(k, r.k, p);
    assert BareOf(k).tables[p] == Marks(t);
    if page in t {
      assert Marks(r.k.tables[p]) == Marks(t)[page := Marks(t)[page].(ref := true)];
    } else if |k.free| > NFFMIN {
      assert Marks(r.k.tables[p]) == Marks(t)[page := Mark(true, FULL)];
    } else if r.ok {
      var q := LT.StrictFrom(t, ESSENTIAL_PAGES).value;
      assert Marks(r.k.tables[p]) == (Marks(t) - {q})[page := Mark(true, FULL)];
    }
  }

  function BareSearch(b: Bare, p: nat, pages: seq<nat>): (r: Result)
    requires p < |b.tables|
    ensures |r.b.tables| == |b.tables|
    decreases |pages|
  {
    if pages == [] then Result(b, true)
    else
      var r := BareAccess(b, p, pages[0]);
      if r.ok then BareSearch(r.b, p, pages[1..]) else r
  }

  lemma {:induction false} SearchBare(k: Kernel, n: nat, p: nat, pages: seq<nat>, draws: seq<nat>)
    requires Intact(k, n) && p < n && |draws| == |pages| && DataTrace(pages) && k.free != []
    ensures var r := VSearch(k, n, p, pages, draws); BareSearch(BareOf(k), p, pages) == Result(BareOf(r.k), r.ok)
    decreases |pages|
  {
    if pages != [] {
      var r := VAccess(k, p, pages[0], draws[0]);
      AccessBare(k, p, pages[0], draws[0]);
      VAccessIntact(k, n, p, pages[0], draws[0]);
      VAccessFloor(k, n, p, pages[0], draws[0]);
      if r.ok {
        SearchBare(r.k, n, p, pages[1..], draws[1..]);
      }
    }
  }

  // ----- a turn

  function AgedMarks(t: map<nat, Mark>): map<nat, Mark> {
    map g | g in t :: Mark(false, Aged(t[g].hist, t[g].ref))
  }

  /** Everybody's place, with the bare pages. */
  datatype Fate = Fate(b: Bare, scnt: seq<nat>, ready: seq<nat>, dropped: set<nat>)

  function FateOf(s: VSys): Fate {
    Fate(BareOf(s.k), s.scnt, s.ready, s.dropped)
  }

  function BareSettle(m: nat, f: Fate, r: Result): Fate
    requires f.ready != [] && f.ready[0] < |f.scnt| && f.ready[0] < |r.b.tables|
  {
    var p := f.ready[0];
    if !r.ok then Fate(r.b, f.scnt, f.ready[1..], f.dropped + {p})
    else
      var scnt := f.scnt[p := f.scnt[p] + 1];
      if scnt[p] < m then Fate(SetTable(r.b, p, AgedMarks(r.b.tables[p])), scnt, f.ready[1..] + [p], f.dropped)
      else Fate(SetTable(r.b, p, map[]).(free := r.b.free + |r.b.tables[p]|), scnt, f.ready[1..], f.dropped)
  }

  lemma AgedBare(k: Kernel, p: nat)
    requires p < |k.tables|
    ensures BareOf(VAge(k, p)) == SetTable(BareOf(k), p, AgedMarks(Marks(k.tables[p])))
  {
    BareWith(k, VAge(k, p), p);
    assert Marks(AgedAll(k.tables[p])) == AgedMarks(Marks(k.tables[p]));
  }

  lemma ReleasedBare(k: Kernel, n: nat, p: nat)
    requires Shape(k, n) && p < n
    ensures BareOf(Release(VAge(k, p), p)) == SetTable(BareOf(k), p, map[]).(free := |k.free| + |BareOf(k).tables[p]|)
  {
    AllReleased(k, n, p);
    var t := Release(VAge(k, p), p);
    BareWith(k, t, p);
    assert Marks(t.tables[p]) == map[];
    assert Marks(k.tables[p]).Keys == k.tables[p].Keys;
    assert |Marks(k.tables[p])| == |Marks(k.tables[p]).Keys| && |k.tables[p]| == |k.tables[p].Keys|;
  }

  lemma SettleBare(n: nat, m: nat, s: VSys, r: Outcome)
    requires Shape(r.k, n) && |s.scnt| == n && s.ready != [] && s.ready[0] < n
    ensures FateOf(VSettle(m, s, r)) == BareSettle(m, FateOf(s), Result(BareOf(r.k), r.ok))
  {
    var p := s.ready[0];
    if r.ok {
      AgedBare(r.k, p);
      ReleasedBare(r.k, n, p);
    }
  }

  // ----- runs

  predicate FateReady(c: LS.Config, f: Fate) {
    && LS.ConfigOk(c) && |f.scnt| == |f.b.tables| == |c.sizes|
    && f.ready != [] && f.ready[0] < |c.sizes| && f.scnt[f.ready[0]] < c.searches
  }

  /** One turn, which is the whole of it when nobody is ready. */
  function FateNext(c: LS.Config, f: Fate): Fate {
    if FateReady(c, f) then FateTurn(c, f) else f
  }

  function FateTurn(c: LS.Config, f: Fate): Fate
    requires FateReady(c, f)
  {
    var p := f.ready[0];
    BareSettle(c.searches, f, BareSearch(f.b, p, PR.Trace(c, p, f.scnt[p])))
  }

  /** The first k pages, not referenced and with the full history. */
  function FreshTable(k: nat): (t: map<nat, Mark>)
    ensures forall g :: g in t <==> 0 <= g < k
    ensures forall g | g in t :: t[g] == Mark(false, FULL)
  {
    if k == 0 then map[] else FreshTable(k - 1)[k - 1 := Mark(false, FULL)]
  }

  function FateStart(c: LS.Config): Fate
    requires LS.ConfigOk(c)
  {
    var n := |c.sizes|;
    Fate(Bare(LS.Spare(c), seq(n, _ => FreshTable(ESSENTIAL_PAGES))), seq(n, _ => 0), seq(n, (i: nat) => i), {})
  }

  /** What the configuration has come to after i turns. */
  function FateAfter(c: LS.Config, i: nat): Fate
    requires LS.ConfigOk(c)
  {
    if i == 0 then FateStart(c) else FateNext(c, FateAfter(c, i - 1))
  }

  lemma NextFate(c: LS.Config, s: VSys, t: VSys)
    requires Steady(c, s) && Next(c, s, t)
    ensures FateOf(t) == FateNext(c, FateOf(s))
  {
    ReadyCanSearch(c, s);
    var draws :| TurnIs(c, s, draws, t);
    SearchBare(s.k, |c.sizes|, s.ready[0], NextPages(c, s), draws);
    SearchShape(c, s, draws);
    SettleBare(|c.sizes|, c.searches, s, NextSearch(c, s, draws));
  }

  // ----- the start

  predicate AllFull(t: map<nat, Slot>) {
    forall g | g in t :: t[g].hist == FULL
  }

  lemma {:induction false} LoadTenFull(k: Kernel, p: nat, page: nat)
    requires Shape(k, |k.tables|) && p < |k.tables| && page <= ESSENTIAL_PAGES <= page + |k.free| && AllFull(k.tables[p])
    ensures var r := LT.LoadTen(k, p, page);
      |r.tables| == |k.tables| && AllFull(r.tables[p]) && forall o | 0 <= o < |k.tables| && o != p :: r.tables[o] == k.tables[o]
    decreases ESSENTIAL_PAGES - page
  {
    if page < ESSENTIAL_PAGES {
      LoadTenFull(LoadFree(k, p, page), p, page + 1);
    }
  }

  lemma {:induction false} LoadAllFull(k: Kernel, p: nat)
    requires Shape(k, |k.tables|) && p <= |k.tables| && (|k.tables| - p) * ESSENTIAL_PAGES <= |k.free|
    requires forall o | 0 <= o < |k.tables| :: AllFull(k.tables[o])
    ensures forall o | 0 <= o < |k.tables| :: AllFull(LT.LoadAll(k, p).tables[o])
    decreases |k.tables| - p
  {
    if p < |k.tables| {
      LoadTenFull(k, p, 0);
      LoadAllFull(LT.LoadTen(k, p, 0), p + 1);
    }
  }

  lemma StartFate(c: LS.Config)
    requires LS.ConfigOk(c)
    ensures FateOf(Start(c)) == FateStart(c)
  {
    StartLoaded(c);
    LoadAllFull(FreshList(|c.sizes|), 0);
    AllFresh(LT.LoadAll(FreshList(|c.sizes|), 0), |c.sizes|);
  }

  lemma AllFresh(k: Kernel, n: nat)
    requires |k.tables| == n && LT.LoadedUpTo(k, n) && forall p | 0 <= p < n :: AllFull(k.tables[p])
    ensures BareOf(Unreferenced(k)).tables == seq(n, _ => FreshTable(ESSENTIAL_PAGES))
  {
    forall p: nat | p < n
      ensures BareOf(Unreferenced(k)).tables[p] == FreshTable(ESSENTIAL_PAGES)
    {
      LoadedFresh(k, p);
    }
  }

  lemma LoadedFresh(k: Kernel, p: nat)
    requires p < |k.tables| && LT.LoadedUpTo(k, |k.tables|) && AllFull(k.tables[p])
    ensures Marks(Unreferenced(k).tables[p]) == FreshTable(ESSENTIAL_PAGES)
  {
    assert LS.HasEssential(k, p) && LT.OnlyEssential(k, p);
    assert Unreferenced(k).tables[p] == Untouched(k.tables[p]);
    var t := Marks(Untouched(k.tables[p]));
    assert t.Keys == FreshTable(ESSENTIAL_PAGES).Keys;
  }

  // ----- draws do not matter

  /** After i turns of any run the pages resident with their bits and histories, the size of the pool, the
      searches done, who is ready and who has been dropped are what the configuration says: nothing that
      rand() gives makes a difference. */
  lemma {:induction false} RunIsFate(c: LS.Config, run: seq<VSys>, i: nat)
    requires RunOf(c, run) && i < |run|
    ensures FateOf(run[i]) == FateAfter(c, i)
  {
    if i == 0 {
      StartFate(c);
    } else {
      RunIsFate(c, run, i - 1);
      RunGoesOn(c, run, i - 1, i);
    }
  }

  lemma RunGoesOn(c: LS.Config, run: seq<VSys>, i: nat, next: nat)
    requires RunOf(c, run) && next == i + 1 && next < |run| && FateOf(run[i]) == FateAfter(c, i)
    ensures FateOf(run[next]) == FateAfter(c, next)
  {
    RunSteady(c, run, i);
    assert Next(c, run[next - 1], run[next]);
    FateGoesOn(c, run[i], run[next], i, next);
  }

  lemma FateGoesOn(c: LS.Config, s: VSys, t: VSys, i: nat, next: nat)
    requires LS.ConfigOk(c) && Steady(c, s) && Next(c, s, t) && FateOf(s) == FateAfter(c, i) && next == i + 1
    ensures FateOf(t) == FateAfter(c, next)
  {
    NextFate(c, s, t);
    OneMoreTurn(c, i, next);
  }

  lemma OneMoreTurn(c: LS.Config, i: nat, next: nat)
    requires LS.ConfigOk(c) && next == i + 1
    ensures FateAfter(c, next) == FateNext(c, FateAfter(c, i))
  {
  }

  /** So two runs drop the same processes in the same turns. */
  lemma DrawsDoNotMatter(c: LS.Config, run: seq<VSys>, other: seq<VSys>, i: nat)
    requires RunOf(c, run) && RunOf(c, other) && i < |run| && i < |other|
    ensures run[i].dropped == other[i].dropped && run[i].ready == other[i].ready && run[i].scnt == other[i].scnt
    ensures |run[i].k.free| == |other[i].k.free|
  {
    RunIsFate(c, run, i);
    RunIsFate(c, other, i);
    assert FateOf(run[i]).b.free == FateOf(other[i]).b.free;
  }

  /** The search of the process at the head after i turns, its first or a later one, drops it exactly if
      going through its pages from what the configuration has come to finds a page missing at the floor and
      every history full. */
  lemma DroppedNext(c: LS.Config, run: seq<VSys>, i: nat)
    requires RunOf(c, run) && i + 1 < |run|
    ensures FateReady(c, FateAfter(c, i))
    ensures var f := FateAfter(c, i); var p := f.ready[0];
      p !in run[i].dropped && (p in run[i + 1].dropped <==> !BareSearch(f.b, p, PR.Trace(c, p, f.scnt[p])).ok)
  {
    RunSteady(c, run, i);
    RunIsFate(c, run, i);
    RunIsFate(c, run, i + 1);
    assert Next(c, run[i], run[i + 1]);
    var p := run[i].ready[0];
    assert Somewhere(c.searches, run[i], p);
    assert FateOf(run[i + 1]).dropped == run[i + 1].dropped;
  }

  lemma {:induction false} FateRests(c: LS.Config, i: nat, j: nat, f: Fate)
    requires LS.ConfigOk(c) && i <= j && FateAfter(c, i) == f && f.ready == []
    ensures FateAfter(c, j) == f
    decreases j
  {
    if i < j {
      FateRests(c, i, j - 1, f);
      OneMoreTurn(c, j - 1, j);
      NobodyTurns(c, f);
    }
  }

  lemma NobodyTurns(c: LS.Config, f: Fate)
    requires f.ready == []
    ensures FateNext(c, f) == f
  {
  }

  lemma DroppedAtTheEnd(c: LS.Config, t: VSys, i: nat, most: nat)
    requires LS.ConfigOk(c) && FateOf(t) == FateAfter(c, i) && t.ready == [] && i <= most
    ensures t.dropped == FateAfter(c, most).dropped
  {
    FateRests(c, i, most, FateOf(t));
  }

  /** Who is dropped in a run that has come to its end is told by the configuration beforehand. */
  lemma WhoIsDropped(c: LS.Config, run: seq<VSys>)
    requires RunOf(c, run) && run[|run| - 1].ready == []
    ensures run[|run| - 1].dropped == FateAfter(c, |c.sizes| * c.searches).dropped
  {
    RunIsFate(c, run, |run| - 1);
    RunsEnd(c, run);
    DroppedAtTheEnd(c, run[|run| - 1], |run| - 1, |c.sizes| * c.searches);
  }
}
