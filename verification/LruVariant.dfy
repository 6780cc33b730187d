/** The other page-replacement simulator: its victim search starts from the full history, its free list
    is kept by moving the last entry into the gap, and a search without a victim drops its process. */
module LruVariant {
  import opened Options
  import opened SearchTrace
  import opened History
  import opened LruSpec
  import opened LruRuns
  import PS = PagingSpec
  import LT = LruTheorems
  import LS = LruSystem
  import PR = PagingRuns

  // ----- the free list

  /** The list when entry f is taken out, the last moved into its place, and e put on top. */
  function Moved(free: seq<FreeFrame>, f: nat, e: FreeFrame): seq<FreeFrame>
    requires f < |free|
  {
    free[f := free[|free| - 1]][..|free| - 1] + [e]
  }

  /** The list with entry f and the top one exchanged. */
  function TopSwapped(free: seq<FreeFrame>, f: nat): seq<FreeFrame>
    requires f < |free|
  {
    free[f := free[|free| - 1]][|free| - 1 := free[f]]
  }

  /** Moving comes to the same frames as exchanging in place does, but for the order. */
  lemma MovedIsSwapped(free: seq<FreeFrame>, f: nat, e: FreeFrame)
    requires f < |free|
    ensures Moved(free, f, e) == TopSwapped(free[f := e], f)
    ensures multiset(Moved(free, f, e)) == multiset(free[f := e])
  {
    TopSwappedSame(free[f := e], f);
  }

  lemma TopSwappedSame(free: seq<FreeFrame>, f: nat)
    requires f < |free|
    ensures multiset(TopSwapped(free, f)) == multiset(free)
  {
  }

  /** The free list and its size, changed in place. */
  class Pool {
    const free_frames: array<FreeFrame>
    var num_free_frames: nat

    ghost predicate Valid()
      reads this
    {
      num_free_frames <= free_frames.Length
    }

    ghost function Contents(): seq<FreeFrame>
      reads this, free_frames
      requires Valid()
    {
      free_frames[..num_free_frames]
    }

    constructor (n: nat)
      ensures Valid() && fresh(free_frames) && Contents() == seq(n, (i: nat) => FF(i, -1, -1))
    {
      free_frames := new FreeFrame[n]((i: nat) => FF(i, -1, -1));
      num_free_frames := n;
      new;
      assert free_frames[..n] == seq(n, (i: nat) => FF(i, -1, -1));
    }

    /** The first entry of this owner, and of this page if one is given; the size if there is none. */
    method Find(owner: int, pno: Option<int>) returns (i: nat)
      requires Valid()
      ensures i == FirstFrom(Contents(), 0, owner, pno)
    {
      i := 0;
      while i < num_free_frames
        invariant i <= num_free_frames
        invariant FirstFrom(Contents(), i, owner, pno) == FirstFrom(Contents(), 0, owner, pno)
      {
        assert Contents()[i] == free_frames[i];
        if free_frames[i].owner == owner && (pno == None || free_frames[i].pno == pno.value) {
          return;
        }
        i := i + 1;
      }
    }

    /** The first entry of this owner that is of another page. */
    method FindOther(owner: int, pno: int) returns (i: nat)
      requires Valid() && FirstFrom(Contents(), 0, owner, Some(pno)) == num_free_frames
      ensures i == FirstFrom(Contents(), 0, owner, None)
    {
      FirstFromFacts(Contents(), 0, owner, Some(pno));
      i := 0;
      while i < num_free_frames
        invariant i <= num_free_frames
        invariant FirstFrom(Contents(), i, owner, None) == FirstFrom(Contents(), 0, owner, None)
      {
        assert Contents()[i] == free_frames[i];
        if free_frames[i].owner == owner && free_frames[i].pno != pno {
          return;
        }
        i := i + 1;
      }
    }

    /** The four attempts: the entry chosen is that of the other program on the same list, whatever rand()
        gives it. */
    method Locate(p: nat, page: nat) returns (i: nat, attempt: nat, ghost draw: nat)
      requires Valid() && num_free_frames > 0
      ensures Choice(i, attempt) == Choose(Contents(), p, page, draw)
      ensures i < num_free_frames && Rank(free_frames[i], p, page) == attempt
      ensures forall k | 0 <= k < num_free_frames :: attempt <= Rank(free_frames[k], p, page)
    {
      draw := 0;
      i := Find(p, Some(page));
      attempt := 1;
      if i == num_free_frames {
        i := Find(-1, None);
        attempt := 2;
        if i == num_free_frames {
          i := FindOther(p, page);
          attempt := 3;
          if i == num_free_frames {
            var r: nat := *;
            draw := r;
            i := r % num_free_frames;
            attempt := 4;
          }
        }
      }
      ghost var free := Contents();
      ChoiceIsBest(free, p, page, draw);
      assert forall k | 0 <= k < num_free_frames :: free[k] == free_frames[k];
    }

    /** Takes a frame for the page, and puts the victim's in its stead on top. */
    method ReplaceFrame(p: nat, page: nat, victim: FreeFrame) returns (frame: nat, attempt: nat, ghost c: Choice, ghost draw: nat)
      requires Valid() && num_free_frames > 0
      modifies this`num_free_frames, free_frames
      ensures Valid() && c == Choose(old(Contents()), p, page, draw) && c.f < |old(Contents())|
      ensures attempt == c.attempt && frame == old(Contents())[c.f].fno
      ensures Contents() == Moved(old(Contents()), c.f, victim)
    {
      ghost var free := Contents();
      var i;
      i, attempt, draw := Locate(p, page);
      c := Choice(i, attempt);
      frame := free_frames[i].fno;
      free_frames[i] := free_frames[num_free_frames - 1];
      num_free_frames := num_free_frames - 1;
      free_frames[num_free_frames] := victim;
      num_free_frames := num_free_frames + 1;
      assert Contents() == Moved(free, i, victim);
    }
  }

  // ----- an access

  function ToTop(k: Kernel, f: nat): Kernel
    requires f < |k.free|
  {
    k.(free := TopSwapped(k.free, f))
  }

  function Faulted(s: Stats): Stats {
    s.(replacements := s.replacements + 1)
  }

  /** The kernel after an access; not ok when a victim is needed and none is found. */
  datatype Outcome = Outcome(k: Kernel, ok: bool)

  function VAccess(k: Kernel, p: nat, page: nat, draw: nat): Outcome
    requires Sized(k, p) && k.free != []
  {
    if page in k.tables[p] then Outcome(Refer(Count(k, p, false), p, page), true)
    else
      var k1 := Count(k, p, true);
      if |k.free| > NFFMIN then Outcome(LoadFree(k1, p, page), true)
      else
        match LT.StrictFrom(k.tables[p], ESSENTIAL_PAGES)
        case None => Outcome(k1.(stats := k1.stats[p := Faulted(k1.stats[p])]), false)
        case Some(q) =>
          var c := Choose(k.free, p, page, draw);
          Outcome(Replace(k1, p, page, q, c).(free := Moved(k.free, c.f, FF(k.tables[p][q].frame, q, p))), true)
  }

  /** An access that goes through does what it does in the other program, up to one exchange in the list. */
  lemma SameButForOrder(k: Kernel, p: nat, page: nat, draw: nat)
    requires Sized(k, p) && k.free != [] && Recorded(k) && VAccess(k, p, page, draw).ok
    ensures Access(k, p, page, draw).Some?
    ensures var a, t := Access(k, p, page, draw).value, VAccess(k, p, page, draw).k;
            t == a || exists f :: 0 <= f < |a.free| && t == ToTop(a, f)
  {
    if page !in k.tables[p] && |k.free| <= NFFMIN {
      LT.StrictVictim(k, p);
      var q := LT.StrictFrom(k.tables[p], ESSENTIAL_PAGES).value;
      var c := Choose(k.free, p, page, draw);
      ChoiceIsBest(k.free, p, page, draw);
      MovedIsSwapped(k.free, c.f, FF(k.tables[p][q].frame, q, p));
      var a := Access(k, p, page, draw).value;
      assert VAccess(k, p, page, draw).k == ToTop(a, c.f);
    }
  }

  /** A process is dropped exactly when it misses a page at the floor and each of its resident data pages
      has been referenced in each of its last sixteen searches since it was loaded. */
  lemma DroppedWhen(k: Kernel, p: nat, page: nat, draw: nat)
    requires Sized(k, p) && k.free != [] && Recorded(k)
    ensures !VAccess(k, p, page, draw).ok <==>
      && page !in k.tables[p] && |k.free| <= NFFMIN
      && !exists g :: DataPage(k.tables[p], g) && exists i :: 0 <= i < |k.tables[p][g].record| && i < WIDTH && !k.tables[p][g].record[i]
  {
    LT.StrictVictim(k, p);
  }

  // ----- what every access keeps

  /** Every frame in one place, every tag true, every history the value of its record. */
  ghost predicate Intact(k: Kernel, n: nat) {
    Whole(k, n) && Truthful(k, n) && Recorded(k)
  }

  lemma ToTopWhole(k: Kernel, n: nat, f: nat)
    requires Whole(k, n) && f < |k.free|
    ensures Whole(ToTop(k, f), n)
  {
    var m, t := Frames(k), Frames(ToTop(k, f));
    var loc: seq<PS.Place> :| PS.Places(m, loc);
    var top := |k.free| - 1;
    var a, b := k.free[f].fno, k.free[top].fno;
    assert m.free[f] == a && m.free[top] == b;
    assert t.tables == m.tables && t.free == m.free[f := b][top := a];
    SwappedPlaces(m, loc, f, top);
    assert PS.Mem(m.free[f := b][top := a], m.tables) == t;
  }

  /** Exchanging two frames of the pool. */
  lemma SwappedPlaces(m: PS.Mem, loc: seq<PS.Place>, f: nat, top: nat)
    requires PS.Places(m, loc) && f < |m.free| && top < |m.free|
    ensures PS.Partition(PS.Mem(m.free[f := m.free[top]][top := m.free[f]], m.tables))
  {
    var a, b := m.free[f], m.free[top];
    var t := PS.Mem(m.free[f := b][top := a], m.tables);
    var next := loc[b := PS.InPool(f)][a := PS.InPool(top)];
    assert loc[a] == PS.InPool(f) && loc[b] == PS.InPool(top);
    assert PS.Places(t, next);
  }

  lemma ToTopIntact(k: Kernel, n: nat, f: nat)
    requires Intact(k, n) && f < |k.free|
    ensures Intact(ToTop(k, f), n)
  {
    ToTopWhole(k, n, f);
    var t := ToTop(k, f);
    forall i | 0 <= i < |t.free|
      ensures TagTrue(t, t.free[i])
    {
      assert TagTrue(k, k.free[i]) && TagTrue(k, k.free[f]) && TagTrue(k, k.free[|k.free| - 1]);
    }
  }

  lemma DropIntact(k: Kernel, n: nat, stats: seq<Stats>)
    requires Intact(k, n) && |stats| == |k.stats|
    ensures Intact(k.(stats := stats), n)
  {
    var t := k.(stats := stats);
    assert Frames(t) == Frames(k);
    assert forall f | 0 <= f < |k.free| :: TagTrue(k, k.free[f]) && TagTrue(t, t.free[f]);
  }

  /** Frames, tags and histories stay right whether the access goes through or not. */
  lemma VAccessIntact(k: Kernel, n: nat, p: nat, page: nat, draw: nat)
    requires Intact(k, n) && p < n && page < PAGE_TABLE_SIZE && k.free != []
    ensures Intact(VAccess(k, p, page, draw).k, n)
  {
    if VAccess(k, p, page, draw).ok {
      SameButForOrder(k, p, page, draw);
      AccessWhole(k, n, p, page, draw);
      AccessTruthful(k, n, p, page, draw);
      AccessRecorded(k, n, p, page, draw);
      var a := Access(k, p, page, draw).value;
      if f :| 0 <= f < |a.free| && VAccess(k, p, page, draw).k == ToTop(a, f) {
        ToTopIntact(a, n, f);
      }
    } else {
      DropIntact(k, n, VAccess(k, p, page, draw).k.stats);
    }
  }

  /** The list never empties, and is taken from only above the floor. */
  lemma VAccessFloor(k: Kernel, n: nat, p: nat, page: nat, draw: nat)
    requires Shape(k, n) && p < n && k.free != []
    ensures var t := VAccess(k, p, page, draw).k;
            |t.free| == if page !in k.tables[p] && |k.free| > NFFMIN then |k.free| - 1 else |k.free|
  {
  }

  /** A process's counters: the attempts add up to its replacements, the one it was dropped at apart. */
  predicate Tallied(s: Stats, dropped: bool) {
    && s.replacements == s.attempt1 + s.attempt2 + s.attempt3 + s.attempt4 + (if dropped then 1 else 0)
    && s.replacements <= s.faults <= s.accesses
  }

  lemma VAccessTallied(k: Kernel, p: nat, page: nat, draw: nat)
    requires Sized(k, p) && k.free != [] && Tallied(k.stats[p], false)
    ensures var r := VAccess(k, p, page, draw);
            && |r.k.stats| == |k.stats| && Tallied(r.k.stats[p], !r.ok)
            && forall o | 0 <= o < |k.stats| && o != p :: r.k.stats[o] == k.stats[o]
  {
    ChoiceIsBest(k.free, p, page, draw);
  }

  // ----- a search, and a turn

  function VSearch(k: Kernel, n: nat, p: nat, pages: seq<nat>, draws: seq<nat>): Outcome
    requires p < n && |draws| == |pages|
    decreases |pages|
  {
    if pages == [] then Outcome(k, true)
    else if !Shape(k, n) || k.free == [] then Outcome(k, false)
    else
      var r := VAccess(k, p, pages[0], draws[0]);
      if r.ok then VSearch(r.k, n, p, pages[1..], draws[1..]) else r
  }

  lemma {:induction false} VSearchKeeps(k: Kernel, n: nat, p: nat, pages: seq<nat>, draws: seq<nat>, floor: nat)
    requires Intact(k, n) && p < n && |draws| == |pages| && Tallied(k.stats[p], false)
    requires forall i | 0 <= i < |pages| :: pages[i] < PAGE_TABLE_SIZE
    requires 0 < floor <= NFFMIN && |k.free| >= floor
    ensures var r := VSearch(k, n, p, pages, draws);
            && Intact(r.k, n) && |r.k.free| >= floor && |r.k.stats| == n && Tallied(r.k.stats[p], !r.ok)
            && forall o | 0 <= o < n && o != p :: r.k.stats[o] == k.stats[o]
    decreases |pages|
  {
    if pages != [] {
      var r := VAccess(k, p, pages[0], draws[0]);
      VAccessIntact(k, n, p, pages[0], draws[0]);
      VAccessFloor(k, n, p, pages[0], draws[0]);
      VAccessTallied(k, p, pages[0], draws[0]);
      if r.ok {
        VSearchKeeps(r.k, n, p, pages[1..], draws[1..], floor);
      }
    }
  }

  // ----- the simulation turn by turn

  /** Ageing in this program takes in the essential pages too. */
  function AgedAll(t: map<nat, Slot>): map<nat, Slot> {
    map g | g in t :: Slot(t[g].frame, false, Aged(t[g].hist, t[g].ref), [t[g].ref] + t[g].record)
  }

  function VAge(k: Kernel, p: nat): Kernel
    requires p < |k.tables|
  {
    k.(tables := k.tables[p := AgedAll(k.tables[p])])
  }

  lemma VAgeIntact(k: Kernel, n: nat, p: nat)
    requires Intact(k, n) && p < n
    ensures Intact(VAge(k, p), n)
  {
    var t := VAge(k, p);
    assert FrameMap(t.tables[p]) == FrameMap(k.tables[p]);
    assert Frames(t).tables == Frames(k).tables;
    assert forall f | 0 <= f < |k.free| :: TagTrue(k, k.free[f]) && TagTrue(t, t.free[f]);
    forall g | g in t.tables[p] && ESSENTIAL_PAGES <= g
      ensures t.tables[p][g].hist == Value(Window(t.tables[p][g].record))
    {
      AgedIsRecorded(k.tables[p][g].record, k.tables[p][g].ref);
    }
  }

  lemma {:induction false} ReleaseIntact(k: Kernel, n: nat, p: nat, page: nat)
    requires Intact(k, n) && p < n && page <= PAGE_TABLE_SIZE
    ensures Intact(ReleaseFrom(k, p, page), n) && |ReleaseFrom(k, p, page).free| >= |k.free|
    ensures ReleaseFrom(k, p, page).stats == k.stats
    decreases PAGE_TABLE_SIZE - page
  {
    if page < PAGE_TABLE_SIZE {
      if page in k.tables[p] {
        ReleaseOneIntact(k, n, p, page);
        ReleaseIntact(ReleaseOne(k, p, page), n, p, page + 1);
      } else {
        ReleaseIntact(k, n, p, page + 1);
      }
    }
  }

  lemma ReleaseOneIntact(k: Kernel, n: nat, p: nat, page: nat)
    requires Intact(k, n) && p < n && page in k.tables[p]
    ensures Intact(ReleaseOne(k, p, page), n)
  {
    var t := ReleaseOne(k, p, page);
    assert FrameMap(t.tables[p]) == FrameMap(k.tables[p]) - {page};
    assert Frames(t).tables == PS.GiveBack(Frames(k), p, page).tables;
    assert Frames(t).free == PS.GiveBack(Frames(k), p, page).free;
    PS.GiveBackPartition(Frames(k), p, page);
    assert forall f | 0 <= f < |k.free| :: TagTrue(k, k.free[f]) && t.free[f] == k.free[f];
  }

  /** The ready ring in order, the searches done, and the processes dropped. */
  datatype VSys = VSys(k: Kernel, scnt: seq<nat>, ready: seq<nat>, dropped: set<nat>)

  /** What the search of the process at the head comes to. */
  function VSettle(m: nat, s: VSys, r: Outcome): VSys
    requires s.ready != [] && s.ready[0] < |s.scnt| && s.ready[0] < |r.k.tables|
  {
    var p := s.ready[0];
    if !r.ok then VSys(r.k, s.scnt, s.ready[1..], s.dropped + {p})
    else
      var aged := VAge(r.k, p);
      var scnt := s.scnt[p := s.scnt[p] + 1];
      if scnt[p] < m then VSys(aged, scnt, s.ready[1..] + [p], s.dropped)
      else VSys(Release(aged, p), scnt, s.ready[1..], s.dropped)
  }

  /** Where a process is: ready, dropped or done, and no two of these. */
  predicate Somewhere(m: nat, s: VSys, p: nat)
    requires p < |s.scnt|
  {
    && s.scnt[p] <= m
    && (p in s.ready <==> s.scnt[p] < m && p !in s.dropped)
    && (p in s.dropped ==> s.scnt[p] < m)
  }

  /** Of n processes with m searches each, in every state of the simulation. */
  ghost predicate VInv(n: nat, m: nat, floor: nat, s: VSys) {
    && Intact(s.k, n) && |s.scnt| == n && 0 < floor <= NFFMIN && |s.k.free| >= floor
    && (forall i | 0 <= i < |s.ready| :: s.ready[i] < n)
    && (forall i, j | 0 <= i < j < |s.ready| :: s.ready[i] != s.ready[j])
    && (forall p: nat | p < n :: Somewhere(m, s, p))
    && (forall p | 0 <= p < n :: Tallied(s.k.stats[p], p in s.dropped))
  }

  /** The places after a turn. */
  lemma VSettlePlaces(n: nat, m: nat, s: VSys, r: Outcome)
    requires |s.scnt| == n == |r.k.tables| && s.ready != []
    requires forall i | 0 <= i < |s.ready| :: s.ready[i] < n
    requires forall i, j | 0 <= i < j < |s.ready| :: s.ready[i] != s.ready[j]
    requires forall p: nat | p < n :: Somewhere(m, s, p)
    ensures var t := VSettle(m, s, r);
      && |t.scnt| == n
      && (forall i | 0 <= i < |t.ready| :: t.ready[i] < n)
      && (forall i, j | 0 <= i < j < |t.ready| :: t.ready[i] != t.ready[j])
      && (forall p: nat | p < n :: Somewhere(m, t, p))
  {
    var h := s.ready[0];
    var t := VSettle(m, s, r);
    assert s.ready == [h] + s.ready[1..];
    assert Somewhere(m, s, h);
    assert h !in s.ready[1..];
    forall p: nat | p < n
      ensures Somewhere(m, t, p)
    {
      assert Somewhere(m, s, p);
    }
  }

  /** Every turn, whether its search goes through or its process is dropped, keeps all that. */
  lemma VTurnInv(n: nat, m: nat, floor: nat, s: VSys, pages: seq<nat>, draws: seq<nat>)
    requires VInv(n, m, floor, s) && s.ready != [] && |draws| == |pages|
    requires forall i | 0 <= i < |pages| :: pages[i] < PAGE_TABLE_SIZE
    ensures s.ready[0] < n && |VSearch(s.k, n, s.ready[0], pages, draws).k.tables| == n
    ensures VInv(n, m, floor, VSettle(m, s, VSearch(s.k, n, s.ready[0], pages, draws)))
  {
    var h := s.ready[0];
    assert Somewhere(m, s, h);
    var r := VSearch(s.k, n, h, pages, draws);
    VSearchKeeps(s.k, n, h, pages, draws, floor);
    VSettlePlaces(n, m, s, r);
    if r.ok {
      VAgeIntact(r.k, n, h);
      ReleaseIntact(VAge(r.k, h), n, h, 0);
    }
  }

  /** Each turn ends a search or drops a process, so the simulation ends: the searches to come of those
      still ready, with one for each, run down. */
  function VToDo(m: nat, s: VSys, p: nat): nat
    requires p <= |s.scnt|
  {
    if p == 0 then 0
    else VToDo(m, s, p - 1) + if p - 1 in s.dropped || s.scnt[p - 1] >= m then 0 else m - s.scnt[p - 1]
  }

  lemma {:induction false} VToDoFalls(m: nat, s: VSys, t: VSys, h: nat, p: nat)
    requires p <= |s.scnt| == |t.scnt| && h < |s.scnt| && h !in s.dropped && s.scnt[h] < m
    requires (t.dropped == s.dropped + {h} && t.scnt == s.scnt)
          || (t.dropped == s.dropped && t.scnt == s.scnt[h := s.scnt[h] + 1])
    ensures if h < p then VToDo(m, t, p) < VToDo(m, s, p) else VToDo(m, t, p) == VToDo(m, s, p)
    decreases p
  {
    if p > 0 {
      VToDoFalls(m, s, t, h, p - 1);
    }
  }

  lemma VTurnProgress(n: nat, m: nat, floor: nat, s: VSys, r: Outcome)
    requires VInv(n, m, floor, s) && s.ready != [] && |r.k.tables| == n
    ensures s.ready[0] < n && |VSettle(m, s, r).scnt| == n && VToDo(m, VSettle(m, s, r), n) < VToDo(m, s, n)
  {
    assert Somewhere(m, s, s.ready[0]);
    VToDoFalls(m, s, VSettle(m, s, r), s.ready[0], n);
  }

  /** The kernel with no page referenced yet. */
  function Unreferenced(k: Kernel): Kernel {
    k.(tables := seq(|k.tables|, p requires 0 <= p < |k.tables| => Untouched(k.tables[p])))
  }

  function Untouched(t: map<nat, Slot>): map<nat, Slot> {
    map g | g in t :: t[g].(ref := false)
  }

  lemma UnreferencedIntact(k: Kernel, n: nat)
    requires Intact(k, n)
    ensures Intact(Unreferenced(k), n)
  {
    var t := Unreferenced(k);
    forall p | 0 <= p < n
      ensures FrameMap(t.tables[p]) == FrameMap(k.tables[p])
    {
      assert t.tables[p] == Untouched(k.tables[p]);
    }
    assert Frames(t).tables == Frames(k).tables;
    assert Frames(t) == Frames(k);
    assert forall f | 0 <= f < |k.free| :: TagTrue(k, k.free[f]) && TagTrue(t, t.free[f]);
  }

  /** The frames in the order of this program's list. */
  function FreshList(n: nat): Kernel {
    LT.FreshKernel(n).(free := seq(NFRAMES, (f: nat) => FF(f, -1, -1)))
  }

  lemma FreshListSound(n: nat)
    ensures Sound(FreshList(n), n) && LT.LoadedUpTo(FreshList(n), 0)
  {
    var k := FreshList(n);
    var loc := seq(NFRAMES, (f: nat) => PS.InPool(f));
    assert Frames(k).tables == seq(n, _ => map[]);
    assert PS.Places(Frames(k), loc);
  }

  /** The start: everybody has the essential pages, which this program does not mark as referenced. */
  function Start(c: LS.Config): VSys
    requires LS.ConfigOk(c)
  {
    var n := |c.sizes|;
    VSys(Unreferenced(LT.LoadAll(FreshList(n), 0)), seq(n, _ => 0), seq(n, (i: nat) => i), {})
  }

  lemma ListLoaded(n: nat)
    requires n * ESSENTIAL_PAGES <= NFRAMES
    ensures var k := LT.LoadAll(FreshList(n), 0);
      LT.LoadedUpTo(k, n) && Sound(k, n) && |k.free| == NFRAMES - n * ESSENTIAL_PAGES
  {
    FreshListSound(n);
    LT.LoadAllFacts(FreshList(n), n, 0);
  }

  lemma StartLoaded(c: LS.Config)
    requires LS.ConfigOk(c)
    ensures var k := LT.LoadAll(FreshList(|c.sizes|), 0);
      && LT.LoadedUpTo(k, |c.sizes|) && Intact(Start(c).k, |c.sizes|) && Counted(Start(c).k)
      && |Start(c).k.free| == LS.Spare(c)
  {
    ListLoaded(|c.sizes|);
    UnreferencedIntact(LT.LoadAll(FreshList(|c.sizes|), 0), |c.sizes|);
  }

  /** Nobody has made a search. */
  ghost predicate Begun(c: LS.Config, t: VSys) {
    && Intact(t.k, |c.sizes|) && Counted(t.k) && |t.k.free| == LS.Spare(c) && t.dropped == {}
    && |t.scnt| == |c.sizes| == |t.ready| && forall i | 0 <= i < |c.sizes| :: t.scnt[i] == 0 && t.ready[i] == i
  }

  lemma StartBegun(c: LS.Config)
    requires LS.ConfigOk(c)
    ensures Begun(c, Start(c))
  {
    StartLoaded(c);
  }

  lemma BegunInv(c: LS.Config, t: VSys)
    requires LS.ConfigOk(c) && Begun(c, t)
    ensures PR.Min(NFFMIN, LS.Spare(c)) > 0 && VInv(|c.sizes|, c.searches, PR.Min(NFFMIN, LS.Spare(c)), t)
  {
    forall p: nat | p < |c.sizes|
      ensures Somewhere(c.searches, t, p)
    {
      assert t.ready[p] == p;
    }
    forall p | 0 <= p < |c.sizes|
      ensures Tallied(t.k.stats[p], false)
    {
      assert t.k.stats[p].replacements <= t.k.stats[p].faults;
    }
  }

  /** There it holds. */
  lemma VStartInv(c: LS.Config)
    requires LS.ConfigOk(c)
    ensures PR.Min(NFFMIN, LS.Spare(c)) > 0
    ensures VInv(|c.sizes|, c.searches, PR.Min(NFFMIN, LS.Spare(c)), Start(c))
  {
    StartBegun(c);
    BegunInv(c, Start(c));
  }
}
