/** Page replacement by approximate least-recent use, on values: the free frames with the tags that
    say what they still hold, and for each process its pages with reference bit and history. */
module LruSpec {
  import opened Options
  import opened SearchTrace
  import opened History

  const NFFMIN: nat := 1000
  const NFRAMES: nat := 12288

  /** A free frame: its number, and the page and process it was last taken from (-1 for none). */
  datatype FreeFrame = FF(fno: nat, pno: int, owner: int)

  /** A resident page; `record` keeps the reference bits of its searches since it was loaded. */
  datatype Slot = Slot(frame: nat, ref: bool, hist: nat, record: seq<bool>)

  datatype Stats = Stats(accesses: nat, faults: nat, replacements: nat,
                         attempt1: nat, attempt2: nat, attempt3: nat, attempt4: nat)

  /** What a frame's memory holds: the page last read into it. */
  datatype Content = Blank | Page(owner: nat, page: nat)

  datatype Kernel = Kernel(free: seq<FreeFrame>, tables: seq<map<nat, Slot>>, stats: seq<Stats>, content: seq<Content>)

  predicate Sized(k: Kernel, p: nat) {
    && p < |k.tables| == |k.stats|
    && (forall f | 0 <= f < |k.free| :: k.free[f].fno < |k.content|)
    && (forall g | g in k.tables[p] :: k.tables[p][g].frame < |k.content|)
  }

  function Put(t: map<nat, Slot>, page: nat, s: Slot): map<nat, Slot> {
    t[page := s]
  }

  // ----- choosing the victim

  /** The lowest-numbered page from j on with the smallest history. */
  function LeastFrom(t: map<nat, Slot>, j: nat): (r: Option<nat>)
    requires j <= PAGE_TABLE_SIZE
    ensures r.Some? ==> r.value in t
    decreases PAGE_TABLE_SIZE - j, |t|
  {
    if j == PAGE_TABLE_SIZE then None
    else
      var rest := LeastFrom(t, j + 1);
      if j in t && (rest == None || t[j].hist <= t[rest.value].hist) then Some(j) else rest
  }

  function Victim(t: map<nat, Slot>): (r: Option<nat>)
    ensures r.Some? ==> r.value in t
  {
    LeastFrom(t, ESSENTIAL_PAGES)
  }

  /** q is a data page, no data page has a smaller history, and none below it has the same. */
  predicate IsVictim(t: map<nat, Slot>, q: nat) {
    && q in t && ESSENTIAL_PAGES <= q < PAGE_TABLE_SIZE
    && forall g | g in t && ESSENTIAL_PAGES <= g < PAGE_TABLE_SIZE ::
         t[q].hist < t[g].hist || (t[q].hist == t[g].hist && q <= g)
  }

  predicate DataPage(t: map<nat, Slot>, g: nat) {
    g in t && ESSENTIAL_PAGES <= g < PAGE_TABLE_SIZE
  }

  lemma {:induction false} LeastFromFacts(t: map<nat, Slot>, j: nat)
    requires j <= PAGE_TABLE_SIZE
    ensures LeastFrom(t, j) == None ==> forall g | g in t && j <= g :: PAGE_TABLE_SIZE <= g
    ensures LeastFrom(t, j).Some? ==>
              var q := LeastFrom(t, j).value;
              && q in t && j <= q < PAGE_TABLE_SIZE
              && forall g | g in t && j <= g < PAGE_TABLE_SIZE :: t[q].hist < t[g].hist || (t[q].hist == t[g].hist && q <= g)
    decreases PAGE_TABLE_SIZE - j
  {
    if j < PAGE_TABLE_SIZE {
      LeastFromFacts(t, j + 1);
    }
  }

  /** A victim is found exactly when some data page is resident, and it is the one IsVictim describes. */
  lemma VictimFacts(t: map<nat, Slot>)
    ensures Victim(t).Some? <==> exists g :: DataPage(t, g)
    ensures Victim(t).Some? ==> IsVictim(t, Victim(t).value)
  {
    LeastFromFacts(t, ESSENTIAL_PAGES);
    if Victim(t).Some? {
      assert DataPage(t, Victim(t).value);
    }
  }

  lemma OneVictim(t: map<nat, Slot>, a: nat, b: nat)
    requires IsVictim(t, a) && IsVictim(t, b)
    ensures a == b
  {
  }

  /** In terms of use: of the resident data pages, the victim has the least recent-use record. */
  lemma VictimIsLeastUsed(t: map<nat, Slot>, q: nat, g: nat)
    requires IsVictim(t, q) && DataPage(t, g)
    requires t[q].hist == Value(Window(t[q].record)) && t[g].hist == Value(Window(t[g].record))
    ensures LessUsed(Window(t[q].record), Window(t[g].record))
            || (Window(t[q].record) == Window(t[g].record) && q <= g)
  {
    OrderIsLexicographic(Window(t[q].record), Window(t[g].record));
    if t[q].hist == t[g].hist {
      ValueInjective(Window(t[q].record), Window(t[g].record));
    }
  }

  // ----- choosing a free frame

  /** The first entry from k on of this owner, and of this page if one is given. */
  function FirstFrom(free: seq<FreeFrame>, k: nat, owner: int, pno: Option<int>): (r: nat)
    requires k <= |free|
    ensures k <= r <= |free|
    decreases |free| - k
  {
    if k == |free| then k
    else if free[k].owner == owner && (pno == None || free[k].pno == pno.value) then k
    else FirstFrom(free, k + 1, owner, pno)
  }

  datatype Choice = Choice(f: nat, attempt: nat)

  /** The four attempts: the page itself, a frame nobody owned, another page of the process, any. */
  function Choose(free: seq<FreeFrame>, p: nat, page: nat, draw: nat): (c: Choice)
    requires free != []
    ensures c.f < |free|
  {
    var f1 := FirstFrom(free, 0, p, Some(page));
    if f1 < |free| then Choice(f1, 1)
    else
      var f2 := FirstFrom(free, 0, -1, None);
      if f2 < |free| then Choice(f2, 2)
      else
        var f3 := FirstFrom(free, 0, p, None);
        if f3 < |free| then Choice(f3, 3) else Choice(draw % |free|, 4)
  }

  /** How good an entry is for page `page` of p: one is best. */
  function Rank(e: FreeFrame, p: nat, page: nat): nat {
    if e.owner == p && e.pno == page then 1
    else if e.owner == -1 then 2
    else if e.owner == p then 3
    else 4
  }

  lemma {:induction false} FirstFromFacts(free: seq<FreeFrame>, k: nat, owner: int, pno: Option<int>)
    requires k <= |free|
    ensures var r := FirstFrom(free, k, owner, pno);
            && (forall i | k <= i < r :: !(free[i].owner == owner && (pno == None || free[i].pno == pno.value)))
            && (r < |free| ==> free[r].owner == owner && (pno == None || free[r].pno == pno.value))
    decreases |free| - k
  {
    if k < |free| {
      FirstFromFacts(free, k + 1, owner, pno);
    }
  }

  /** The chosen entry is of the best class present, and the attempt number is that class. */
  lemma ChoiceIsBest(free: seq<FreeFrame>, p: nat, page: nat, draw: nat)
    requires free != []
    ensures var c := Choose(free, p, page, draw);
            && c.f < |free| && Rank(free[c.f], p, page) == c.attempt
            && (forall i | 0 <= i < |free| :: c.attempt <= Rank(free[i], p, page))
            && (c.attempt < 4 ==> forall i | 0 <= i < c.f :: c.attempt < Rank(free[i], p, page))
  {
    FirstFromFacts(free, 0, p, Some(page));
    FirstFromFacts(free, 0, -1, None);
    FirstFromFacts(free, 0, p, None);
  }

  // ----- one access

  function Bump(s: Stats, attempt: nat): Stats {
    match attempt
    case 1 => s.(replacements := s.replacements + 1, attempt1 := s.attempt1 + 1)
    case 2 => s.(replacements := s.replacements + 1, attempt2 := s.attempt2 + 1)
    case 3 => s.(replacements := s.replacements + 1, attempt3 := s.attempt3 + 1)
    case _ => s.(replacements := s.replacements + 1, attempt4 := s.attempt4 + 1)
  }

  /** Enough frames: take the one on top. */
  function LoadFree(k: Kernel, p: nat, page: nat): Kernel
    requires Sized(k, p) && k.free != []
  {
    var top := |k.free| - 1;
    var f := k.free[top].fno;
    k.(free := k.free[..top],
       tables := k.tables[p := Put(k.tables[p], page, Slot(f, true, FULL, []))],
       content := k.content[f := Page(p, page)])
  }

  /** At the floor: victim q gives its frame to the free list in exchange for the chosen one.
      Nothing is read in when the chosen frame still holds the page. */
  function Replace(k: Kernel, p: nat, page: nat, q: nat, c: Choice): Kernel
    requires Sized(k, p) && q in k.tables[p] && c.f < |k.free|
  {
    var f := k.free[c.f].fno;
    k.(free := k.free[c.f := FF(k.tables[p][q].frame, q, p)],
       tables := k.tables[p := Put(k.tables[p] - {q}, page, Slot(f, true, FULL, []))],
       stats := k.stats[p := Bump(k.stats[p], c.attempt)],
       content := if c.attempt == 1 then k.content else k.content[f := Page(p, page)])
  }

  function Refer(k: Kernel, p: nat, page: nat): Kernel
    requires p < |k.tables| && page in k.tables[p]
  {
    k.(tables := k.tables[p := Put(k.tables[p], page, k.tables[p][page].(ref := true))])
  }

  function Count(k: Kernel, p: nat, fault: bool): Kernel
    requires p < |k.stats|
  {
    var s := k.stats[p];
    k.(stats := k.stats[p := s.(accesses := s.accesses + 1, faults := s.faults + if fault then 1 else 0)])
  }

  /** One access of p to a page; `draw` is what rand() gives if it is asked.  None when a victim is
      needed and there is none, or the free list is empty. */
  function Access(k: Kernel, p: nat, page: nat, draw: nat): Option<Kernel>
    requires Sized(k, p)
  {
    if page in k.tables[p] then Some(Refer(Count(k, p, false), p, page))
    else
      var k1 := Count(k, p, true);
      if |k.free| > NFFMIN then Some(LoadFree(k1, p, page))
      else
        match Victim(k.tables[p])
        case None => None
        case Some(q) =>
          if k.free == [] then None else Some(Replace(k1, p, page, q, Choose(k.free, p, page, draw)))
  }
}
