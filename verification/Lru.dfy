/** The page-replacement simulator over its arrays. */
module Lru {
  import opened Options
  import opened PageEntry
  import opened SearchTrace
  import opened History
  import opened LruSpec
  import opened LruRuns
  import opened LruSystem
  import LR = LruRoom
  import LT = LruTheorems
  import PS = PagingSpec

  class Machine {
    const n: nat
    const fflist: array<FreeFrame>
    var nff: nat
    const list: array2<nat>
    const hist: array2<nat>
    const stats: array<Stats>
    ghost const Repr: set<object>
    ghost var K: Kernel

    /** What the two tables hold for one page. */
    ghost predicate Entry(p: nat, g: nat)
      reads this, list, hist
      requires p < list.Length0 == hist.Length0 == |K.tables| && g < list.Length1 == hist.Length1
    {
      if g in K.tables[p] then
        var s := K.tables[p][g];
        list[p, g] == Pack(s.frame, s.ref) && hist[p, g] == s.hist <= FULL
      else
        list[p, g] == 0
    }

    /** The arrays hold the kernel K; the tables of a process that has left are not looked at any more. */
    ghost predicate Tied()
      reads this, Repr
    {
      && Repr == {this, fflist, list, hist, stats}
      && list != hist && list.Length0 == hist.Length0 == n && list.Length1 == hist.Length1 == PAGE_TABLE_SIZE
      && stats.Length == n && fflist.Length == NFRAMES
      && Shape(K, n)
      && nff == |K.free| <= NFRAMES
      && (forall f | 0 <= f < nff :: fflist[f] == K.free[f])
      && stats[..] == K.stats
    }

    ghost predicate Row(p: nat)
      reads this, Repr
      requires Tied() && p < n
    {
      forall g | 0 <= g < PAGE_TABLE_SIZE :: Entry(p, g)
    }

    /** All frames free and owned by nobody, nothing in any table. */
    constructor (n: nat)
      ensures Tied() && fresh(Repr) && this.n == n && K == LT.FreshKernel(n)
      ensures forall p | 0 <= p < n :: Row(p)
    {
      this.n := n;
      fflist := new FreeFrame[NFRAMES](f => FF(if f < NFRAMES then NFRAMES - 1 - f else 0, -1, -1));
      nff := NFRAMES;
      list := new nat[n, PAGE_TABLE_SIZE]((_, _) => 0);
      hist := new nat[n, PAGE_TABLE_SIZE]((_, _) => 0);
      stats := new Stats[n](_ => Stats(0, 0, 0, 0, 0, 0, 0));
      K := LT.FreshKernel(n);
      Repr := {this, fflist, list, hist, stats};
      new;
      assert stats[..] == K.stats;
    }

    /** Gives process p its ten essential pages, which stay referenced and fully used. */
    method LoadEssential(p: nat)
      requires Tied() && p < n && Row(p) && K.tables[p] == map[] && nff >= ESSENTIAL_PAGES
      modifies Repr
      ensures Tied() && Row(p) && K == LT.LoadTen(old(K), p, 0)
      ensures forall o | 0 <= o < n && o != p && old(Row(o)) :: Row(o)
    {
      for j := 0 to ESSENTIAL_PAGES
        invariant Tied() && Row(p) && |K.free| == |old(K).free| - j
        invariant forall o | 0 <= o < n && o != p && old(Row(o)) :: Row(o)
        invariant forall g | g in K.tables[p] :: g < j
        invariant LT.LoadTen(K, p, j) == old(LT.LoadTen(K, p, 0))
      {
        TakeFree(p, j);
      }
    }

    /** The victim: the lowest-numbered data page with the smallest history, -1 if there is none. */
    method FindVictim(p: nat) returns (q: int)
      requires Tied() && p < n && Row(p)
      ensures if q == -1 then Victim(K.tables[p]) == None else q >= 0 && Victim(K.tables[p]) == Some(q)
    {
      q := -1;
      var minhist := 1000000000;
      ghost var t := K.tables[p];
      for j := ESSENTIAL_PAGES to PAGE_TABLE_SIZE
        invariant q == -1 ==> forall g | g in t && ESSENTIAL_PAGES <= g < j :: t[g].hist >= minhist
        invariant q == -1 ==> minhist == 1000000000
        invariant q != -1 ==> ESSENTIAL_PAGES <= q < j && q in t && minhist == t[q].hist
        invariant q != -1 ==> forall g | g in t && ESSENTIAL_PAGES <= g < j :: t[q].hist < t[g].hist || (t[q].hist == t[g].hist && q <= g)
      {
        assert Entry(p, j);
        if IsValid(list[p, j]) && hist[p, j] < minhist {
          minhist := hist[p, j];
          q := j;
        }
      }
      VictimFacts(t);
      forall g | DataPage(t, g)
        ensures t[g].hist <= FULL
      {
        assert Entry(p, g);
      }
      if q != -1 {
        assert DataPage(t, q);
        OneVictim(t, q, Victim(t).value);
      }
    }

    /** The first entry of the free list of this owner, and of this page unless `any`; nff if none. */
    method Find(owner: int, pno: int, any: bool) returns (f: nat)
      requires Tied()
      ensures f == FirstFrom(K.free, 0, owner, if any then None else Some(pno))
    {
      f := 0;
      while f < nff
        invariant f <= nff
        invariant FirstFrom(K.free, f, owner, if any then None else Some(pno)) ==
                  FirstFrom(K.free, 0, owner, if any then None else Some(pno))
      {
        if fflist[f].owner == owner && (any || fflist[f].pno == pno) {
          break;
        }
        f := f + 1;
      }
    }

    /** The four attempts; `draw` is what rand() gave. */
    method ChooseFrame(p: nat, page: nat) returns (f: nat, attempt: nat, ghost draw: nat)
      requires Tied() && p < n && nff > 0
      ensures Choice(f, attempt) == Choose(K.free, p, page, draw)
      ensures f < |K.free| && Rank(K.free[f], p, page) == attempt
      ensures forall i | 0 <= i < |K.free| :: attempt <= Rank(K.free[i], p, page)
      ensures attempt < 4 ==> forall i | 0 <= i < f :: attempt < Rank(K.free[i], p, page)
    {
      draw := 0;
      f := Find(p, page, false);
      attempt := 1;
      if f == nff {
        f := Find(-1, 0, true);
        attempt := 2;
      }
      if f == nff {
        f := Find(p, 0, true);
        attempt := 3;
      }
      if f == nff {
        var r: nat := *;
        draw := r;
        f := r % nff;
        attempt := 4;
      }
      ChoiceIsBest(K.free, p, page, draw);
    }

    /** A fault with frames to spare. */
    method TakeFree(p: nat, page: nat)
      requires Tied() && p < n && page < PAGE_TABLE_SIZE && Row(p) && nff > 0 && page !in K.tables[p]
      modifies Repr
      ensures Tied() && Row(p) && K == LoadFree(old(K), p, page)
      ensures forall o | 0 <= o < n && o != p && old(Row(o)) :: Row(o)
    {
      nff := nff - 1;
      var pframe := fflist[nff].fno;
      list[p, page] := Pack(pframe, true);
      hist[p, page] := FULL;
      K := LoadFree(K, p, page);
      forall o, g | 0 <= o < n && 0 <= g < PAGE_TABLE_SIZE && old(Row(o))
        ensures Entry(o, g)
      {
        assert old(Entry(o, g));
      }
    }

    /** A fault at the floor: the victim's frame changes places with the chosen one. */
    method Exchange(p: nat, page: nat, q: nat, f: nat, attempt: nat)
      requires Tied() && p < n && page < PAGE_TABLE_SIZE && Row(p) && f < nff
      requires page !in K.tables[p] && q in K.tables[p] && 1 <= attempt <= 4
      modifies Repr
      ensures Tied() && Row(p) && K == Replace(old(K), p, page, q, Choice(f, attempt))
      ensures forall o | 0 <= o < n && o != p && old(Row(o)) :: Row(o)
    {
      assert Entry(p, q);
      var qframe := Frame14(list[p, q]);
      var pframe := fflist[f].fno;
      fflist[f] := FF(qframe, q, p);
      stats[p] := Bump(stats[p], attempt);
      list[p, page] := Pack(pframe, true);
      hist[p, page] := FULL;
      list[p, q] := 0;
      hist[p, q] := 0;
      K := Replace(K, p, page, q, Choice(f, attempt));
      forall o, g | 0 <= o < n && 0 <= g < PAGE_TABLE_SIZE && old(Row(o))
        ensures Entry(o, g)
      {
        assert old(Entry(o, g));
      }
    }

    method MarkReferenced(p: nat, page: nat)
      requires Tied() && p < n && page < PAGE_TABLE_SIZE && Row(p) && page in K.tables[p]
      modifies Repr
      ensures Tied() && Row(p) && K == Refer(old(K), p, page)
      ensures forall o | 0 <= o < n && o != p && old(Row(o)) :: Row(o)
    {
      assert Entry(p, page);
      if !HasRef(list[p, page]) {
        list[p, page] := list[p, page] + REF;
      }
      K := Refer(K, p, page);
      forall o, g | 0 <= o < n && 0 <= g < PAGE_TABLE_SIZE && old(Row(o))
        ensures Entry(o, g)
      {
        assert old(Entry(o, g));
      }
    }

    method CountAccess(p: nat, fault: bool)
      requires Tied() && p < n
      modifies Repr
      ensures Tied() && K == Count(old(K), p, fault)
      ensures forall o | 0 <= o < n && old(Row(o)) :: Row(o)
    {
      var s := stats[p];
      stats[p] := s.(accesses := s.accesses + 1, faults := s.faults + if fault then 1 else 0);
      K := Count(K, p, fault);
      forall o, g | 0 <= o < n && 0 <= g < PAGE_TABLE_SIZE && old(Row(o))
        ensures Entry(o, g)
      {
        assert old(Entry(o, g));
      }
    }

    /** One access; not ok when a victim is needed and none is resident, or no frame is free. */
    method AccessPage(p: nat, page: nat) returns (ok: bool, ghost draw: nat)
      requires Tied() && p < n && ESSENTIAL_PAGES <= page < PAGE_TABLE_SIZE && Row(p)
      modifies Repr
      ensures Access(old(K), p, page, draw) == if ok then Some(K) else None
      ensures ok ==> Tied() && Row(p) && forall o | 0 <= o < n && o != p && old(Row(o)) :: Row(o)
    {
      ok, draw := true, 0;
      assert Entry(p, page);
      if IsValid(list[p, page]) {
        CountAccess(p, false);
        MarkReferenced(p, page);
      } else {
        CountAccess(p, true);
        if nff > NFFMIN {
          TakeFree(p, page);
        } else {
          var q := FindVictim(p);
          if q == -1 || nff == 0 {
            return false, 0;
          }
          var f, attempt;
          f, attempt, draw := ChooseFrame(p, page);
          ChoiceIsBest(K.free, p, page, draw);
          Exchange(p, page, q, f, attempt);
        }
      }
    }

    /** One round of the binary search; pre and draws are the accesses made so far, from kernel k0 on. */
    method Probe(p: nat, left: nat, right: nat, key: int, ghost k0: Kernel, ghost pre: seq<nat>, ghost draws: seq<nat>)
      returns (ok: bool, left': nat, right': nat, ghost pre': seq<nat>, ghost draws': seq<nat>)
      requires Tied() && p < n && Row(p) && left < right < MAX_SIZE
      requires |draws| == |pre| && Search(k0, n, p, pre, draws) == Some(K)
      modifies Repr
      ensures right' <= right && right' - left' < right - left
      ensures |draws'| == |pre'| && pre' + Pages(left', right', key) == pre + Pages(left, right, key)
      ensures ok ==> Tied() && Row(p) && (forall o | 0 <= o < n && o != p && old(Row(o)) :: Row(o))
                     && Search(k0, n, p, pre', draws') == Some(K)
      ensures !ok ==> var rest := Pages(left', right', key);
                Search(k0, n, p, pre' + rest, draws' + seq(|rest|, _ => 0)) == None
    {
      var mid := (left + right) / 2;
      left', right' := if key > mid then mid + 1 else left, if key <= mid then mid else right;
      ghost var rest := Pages(left', right', key);
      PagesUnfold(left, right, key, pre);
      ghost var draw;
      ok, draw := AccessPage(p, PageOf(mid));
      SearchStep(k0, n, p, pre, draws, old(K), PageOf(mid), draw, rest);
      pre', draws' := pre + [PageOf(mid)], draws + [draw];
    }

    /** The binary search of process p. */
    method SearchLoop(p: nat, size: nat, key: int) returns (ok: bool, ghost draws: seq<nat>)
      requires Tied() && p < n && Row(p) && size <= MAX_SIZE
      modifies Repr
      ensures var pages := if size == 0 then [] else Pages(0, size - 1, key);
              |draws| == |pages| && Search(old(K), n, p, pages, draws) == if ok then Some(K) else None
      ensures ok ==> Tied() && Row(p) && forall o | 0 <= o < n && o != p && old(Row(o)) :: Row(o)
    {
      ok, draws := true, [];
      if size == 0 {
        return;
      }
      ghost var pre: seq<nat> := [];
      var left: nat, right: nat := 0, size - 1;
      while left < right && ok
        invariant |draws| == |pre| && right <= size - 1
        invariant Pages(0, size - 1, key) == pre + Pages(left, right, key)
        invariant ok ==> Tied() && Row(p) && (forall o | 0 <= o < n && o != p && old(Row(o)) :: Row(o))
                         && Search(old(K), n, p, pre, draws) == Some(K)
        invariant !ok ==> var rest := Pages(left, right, key);
                    Search(old(K), n, p, pre + rest, draws + seq(|rest|, _ => 0)) == None
        decreases right - left, ok
      {
        ok, left, right, pre, draws := Probe(p, left, right, key, old(K), pre, draws);
      }
      ghost var rest := Pages(left, right, key);
      if !ok {
        draws := draws + seq(|rest|, _ => 0);
      } else {
        assert pre + rest == pre;
      }
    }

    /** What the tables hold for a page whose slot is s. */
    ghost predicate Holds(p: nat, g: nat, s: Slot)
      reads list, hist
      requires p < list.Length0 == hist.Length0 && g < list.Length1 == hist.Length1
    {
      list[p, g] == Pack(s.frame, s.ref) && hist[p, g] == s.hist <= FULL
    }

    /** The end of a search: every data page's reference bit moves into its history. */
    method AgePages(p: nat)
      requires Tied() && p < n && Row(p)
      modifies Repr
      ensures Tied() && Row(p) && K == Age(old(K), p)
      ensures forall o | 0 <= o < n && o != p && old(Row(o)) :: Row(o)
    {
      ghost var t := K.tables[p];
      forall g | g in t
        ensures Holds(p, g, t[g])
      {
        assert Entry(p, g);
      }
      for j := ESSENTIAL_PAGES to PAGE_TABLE_SIZE
        invariant forall g | g in t :: Holds(p, g, if g < j then AgedSlot(g, t[g]) else t[g])
        invariant forall g | 0 <= g < PAGE_TABLE_SIZE && g !in t :: list[p, g] == old(list[p, g])
        invariant forall o, g | 0 <= o < n && o != p && 0 <= g < PAGE_TABLE_SIZE ::
                    list[o, g] == old(list[o, g]) && hist[o, g] == old(hist[o, g])
        modifies list, hist
      {
        assert j !in t ==> old(Entry(p, j));
        if IsValid(list[p, j]) {
          assert Holds(p, j, t[j]);
          hist[p, j] := hist[p, j] / 2;
          if HasRef(list[p, j]) {
            hist[p, j] := hist[p, j] + TOP;
            list[p, j] := list[p, j] - REF;
          }
        }
      }
      K := Age(K, p);
      forall o, g | 0 <= o < n && 0 <= g < PAGE_TABLE_SIZE && old(Row(o))
        ensures Entry(o, g)
      {
        assert old(Entry(o, g));
        if o == p && g in t {
          assert Holds(p, g, AgedSlot(g, t[g]));
        }
      }
    }

    /** The end of a process: its frames join the free list, in page order, owned by nobody.
        The page table is left as it is, and not looked at again. */
    method ReleaseFrames(p: nat)
      requires Tied() && p < n && Row(p) && Sound(K, n)
      modifies Repr
      ensures Tied() && K == Release(old(K), p)
      ensures forall o | 0 <= o < n && o != p && old(Row(o)) :: Row(o)
    {
      ghost var t := K.tables[p];
      forall g | g in t
        ensures Holds(p, g, t[g])
      {
        assert Entry(p, g);
      }
      forall g | 0 <= g < PAGE_TABLE_SIZE && g !in t
        ensures list[p, g] == 0
      {
        assert Entry(p, g);
      }
      for j := 0 to PAGE_TABLE_SIZE
        invariant Tied() && Sound(K, n) && ReleaseFrom(K, p, j) == old(Release(K, p))
        invariant forall g | j <= g < PAGE_TABLE_SIZE :: g in K.tables[p] <==> g in t
        invariant forall g | j <= g < PAGE_TABLE_SIZE && g in t :: K.tables[p][g] == t[g]
        invariant forall o | 0 <= o < n && o != p :: K.tables[o] == old(K.tables[o])
        modifies this`nff, this`K, fflist
      {
        if IsValid(list[p, j]) {
          ReleaseEntry(p, j, t);
        }
      }
      forall o, g | 0 <= o < n && o != p && 0 <= g < PAGE_TABLE_SIZE && old(Row(o))
        ensures Entry(o, g)
      {
        assert old(Entry(o, g));
      }
    }

    method ReleaseEntry(p: nat, page: nat, ghost t: map<nat, Slot>)
      requires Tied() && Sound(K, n) && p < n && page < PAGE_TABLE_SIZE
      requires page in K.tables[p] && page in t && K.tables[p][page] == t[page] && Holds(p, page, t[page])
      modifies this`nff, this`K, fflist
      ensures Tied() && Sound(K, n) && K == ReleaseOne(old(K), p, page)
    {
      assert FrameMap(K.tables[p])[page] == Frames(K).tables[p][page];
      PS.RoomInPool(Frames(K), p, page);
      ReleaseOneKeeps(K, n, p, page);
      fflist[nff] := FF(Frame14(list[p, page]), -1, -1);
      nff := nff + 1;
      K := ReleaseOne(K, p, page);
    }
  }

  class Simulator {
    const c: Config
    const machine: Machine
    const scnt: array<nat>
    var readylist: seq<nat>
    ghost const Repr: set<object>

    ghost predicate Valid()
      reads this, Repr
    {
      && Repr == {this, scnt} + machine.Repr && machine in machine.Repr && this !in machine.Repr && scnt !in machine.Repr
      && machine.Tied() && machine.n == scnt.Length == |c.sizes|
      && forall i | 0 <= i < |readylist| :: readylist[i] < |c.sizes| && machine.Row(readylist[i])
    }

    ghost function Now(): Sys
      reads this, Repr
      requires Valid()
    {
      Sys(machine.K, scnt[..], readylist)
    }

    constructor (c: Config, machine: Machine)
      requires ConfigOk(c) && machine.Tied() && machine.n == |c.sizes|
      ensures Valid() && this.c == c && this.machine == machine && readylist == []
      ensures fresh(Repr - machine.Repr) && forall p | 0 <= p < |c.sizes| :: scnt[p] == 0
    {
      this.c, this.machine, readylist := c, machine, [];
      var count := new nat[|c.sizes|](_ => 0);
      scnt := count;
      Repr := {this, count} + machine.Repr;
    }

    /** The first i processes are loaded and listed. */
    ghost predicate Loaded(i: nat)
      reads this, Repr
      requires Valid() && ConfigOk(c)
    {
      && i <= |c.sizes| && |readylist| == i && (forall q | 0 <= q < i :: readylist[q] == q)
      && (forall p | 0 <= p < |c.sizes| :: machine.Row(p))
      && LoadedKernel(c, machine.K, i)
    }

    method LoadNext(i: nat)
      requires Valid() && ConfigOk(c) && Loaded(i) && i < |c.sizes|
      modifies machine.Repr, this`readylist
      ensures Valid() && Loaded(i + 1)
    {
      LoadsOne(c, machine.K, i);
      machine.LoadEssential(i);
      readylist := readylist + [i];
    }

    /** Loads everybody's essential pages and lists everybody as ready. */
    method InitKernelData()
      requires Valid() && ConfigOk(c) && machine.K == LT.FreshKernel(|c.sizes|) && readylist == []
      requires forall p | 0 <= p < |c.sizes| :: scnt[p] == 0 && machine.Row(p)
      modifies machine.Repr, this`readylist
      ensures Valid() && Now() == LT.Init(c)
    {
      for i := 0 to |c.sizes|
        invariant Valid() && Loaded(i)
      {
        LoadNext(i);
      }
      assert scnt[..] == seq(|c.sizes|, _ => 0);
      assert readylist == seq(|c.sizes|, (i: nat) => i);
    }

    /** Process p's pages are aged, and its search counted. */
    method AgeAndCount(p: nat)
      requires Valid() && p < |c.sizes| && machine.Row(p)
      modifies machine.Repr, scnt
      ensures Valid() && Now() == Sys(Age(old(machine.K), p), old(scnt[..])[p := old(scnt[p]) + 1], readylist)
    {
      machine.AgePages(p);
      scnt[p] := scnt[p] + 1;
    }

    /** The process at the front goes to the back. */
    method Requeue()
      requires Valid() && readylist != []
      modifies this`readylist
      ensures Valid() && Now() == old(Now()).(ready := old(readylist[1..]) + [old(readylist[0])])
    {
      readylist := readylist[1..] + [readylist[0]];
    }

    /** The process at the front leaves, with all its frames. */
    method LetGo()
      requires Valid() && readylist != [] && Sound(machine.K, |c.sizes|)
      requires forall i, k | 0 <= i < k < |readylist| :: readylist[i] != readylist[k]
      modifies machine.Repr, this`readylist
      ensures Valid() && Now() == Sys(Release(old(machine.K), old(readylist[0])), old(scnt[..]), old(readylist[1..]))
    {
      ghost var rest := readylist[1..];
      assert forall i | 0 <= i < |rest| :: rest[i] == readylist[i + 1] != readylist[0];
      machine.ReleaseFrames(readylist[0]);
      readylist := readylist[1..];
    }

    /** What follows a search that went through. */
    method Settle(p: nat, ghost before: Sys)
      requires Valid() && readylist != [] && p == readylist[0] && SysShape(c, before)
      requires Sound(machine.K, |c.sizes|) && scnt[..] == before.scnt && readylist == before.ready
      modifies Repr
      ensures Valid() && Now() == LruSystem.Settle(c, before, old(machine.K))
    {
      AgeKeeps(machine.K, machine.n, p);
      AgeAndCount(p);
      if scnt[p] < c.searches {
        Requeue();
      } else {
        LetGo();
      }
    }

    /** The next search; not ok when it needs a victim and its process has no data page. */
    method NextSearch() returns (ok: bool, ghost draws: seq<nat>)
      requires Valid() && Inv(c, Now()) && readylist != []
      modifies Repr
      ensures |draws| == |NextPages(c, old(Now()))|
      ensures ok ==> Valid() && Inv(c, Now())
      ensures Turn(c, old(Now()), draws) == if ok then Some(Now()) else None
    {
      ghost var s := Now();
      var i := readylist[0];
      ok, draws := machine.SearchLoop(i, c.sizes[i], c.keys[i][scnt[i]]);
      if ok {
        SearchedTurn(c, s, draws, machine.K);
        Settle(i, s);
      }
    }

    /** One turn of the main loop, which goes on the run so far. */
    method NextTurn(ghost run: seq<Sys>) returns (ok: bool, ghost more: seq<Sys>)
      requires Valid() && LT.RunOf(c, run) && run[|run| - 1] == Now() && Inv(c, Now()) && readylist != []
      modifies Repr
      ensures ok ==> Valid() && Inv(c, Now()) && LT.RunOf(c, more) && |more| == |run| + 1 && more[|run|] == Now()
      ensures !ok ==> !LR.GoesOn(c, run[|run| - 1])
    {
      ghost var s := Now();
      ghost var draws;
      ok, draws := NextSearch();
      more := run;
      if ok {
        assert LT.Next(c, s, Now());
        LR.RunMore(c, run, Now());
        more := run + [Now()];
      }
    }

    /** The main loop, from the start: it goes on until every search is done, provided nobody lacks room. */
    method Run() returns (ok: bool)
      requires Valid() && ConfigOk(c) && Now() == LT.Init(c)
      modifies Repr
      ensures ok <==> LR.Roomy(c)
      ensures ok ==> Valid() && Done()
    {
      ok := true;
      LT.InitInv(c);
      ghost var run, most := [Now()], c.searches * |c.sizes| + 1;
      LT.RunsEnd(c, run);
      while readylist != []
        invariant Valid() && Inv(c, Now()) && ok
        invariant LT.RunOf(c, run) && run[|run| - 1] == Now() && |run| <= most
        decreases most - |run|
      {
        ghost var before := run;
        ok, run := NextTurn(run);
        if !ok {
          StoppedSoNotRoomy(c, before);
          return;
        }
        LT.RunsEnd(c, run);
      }
      LR.EndedSoRoomy(c, run);
      AllDone();
    }

    lemma AllDone()
      requires Valid() && Inv(c, Now()) && readylist == []
      ensures Done()
    {
      LT.NothingLeft(c, Now());
      assert forall p | 0 <= p < |c.sizes| :: machine.stats[p] == Now().k.stats[p] && scnt[p] == Now().scnt[p];
    }

    /** Everybody has made every search, all frames are free, and the counters add up. */
    ghost predicate Done()
      reads this, Repr
      requires Valid()
    {
      && readylist == [] && machine.nff == NFRAMES
      && (forall p | 0 <= p < |c.sizes| :: scnt[p] == c.searches)
      && (forall p | 0 <= p < |c.sizes| ::
            var st := machine.stats[p];
            st.replacements == st.attempt1 + st.attempt2 + st.attempt3 + st.attempt4)
    }
  }

  /** The turn whose search has come to k. */
  lemma SearchedTurn(c: Config, s: Sys, draws: seq<nat>, k: Kernel)
    requires Inv(c, s) && s.ready != [] && |draws| == |NextPages(c, s)|
    requires Search(s.k, |c.sizes|, s.ready[0], NextPages(c, s), draws) == Some(k)
    ensures Sound(k, |c.sizes|)
    ensures Turn(c, s, draws) == Some(Settle(c, s, k)) && Inv(c, Settle(c, s, k))
  {
    SearchOutcome(c, s, draws);
    TurnInv(c, s, draws);
  }

  lemma StoppedSoNotRoomy(c: Config, run: seq<Sys>)
    requires LT.RunOf(c, run) && !LR.GoesOn(c, run[|run| - 1])
    ensures !LR.Roomy(c)
  {
    if LR.Roomy(c) {
      LR.RoomyRun(c, run);
    }
  }

  /** The kernel after the essential pages of the first i processes have been loaded. */
  ghost predicate LoadedKernel(c: Config, k: Kernel, i: nat) {
    && ConfigOk(c) && Shape(k, |c.sizes|) && i <= |c.sizes| == |k.tables|
    && (forall p | i <= p < |c.sizes| :: k.tables[p] == map[])
    && |k.free| == NFRAMES - i * ESSENTIAL_PAGES
    && LT.LoadAll(k, i) == LT.LoadAll(LT.FreshKernel(|c.sizes|), 0)
  }

  lemma LoadsOne(c: Config, k: Kernel, i: nat)
    requires LoadedKernel(c, k, i) && i < |c.sizes|
    ensures ESSENTIAL_PAGES <= |k.free| && LoadedKernel(c, LT.LoadTen(k, i, 0), i + 1)
  {
    LoadTenOthers(k, i, 0);
  }

  lemma {:induction false} LoadTenOthers(k: Kernel, p: nat, page: nat)
    requires Shape(k, |k.tables|) && p < |k.tables| && page <= ESSENTIAL_PAGES <= page + |k.free|
    ensures forall o | 0 <= o < |k.tables| && o != p :: LT.LoadTen(k, p, page).tables[o] == k.tables[o]
    decreases ESSENTIAL_PAGES - page
  {
    if page < ESSENTIAL_PAGES {
      LoadTenOthers(LoadFree(k, p, page), p, page + 1);
    }
  }

  /** The program: it does everything it is to do, or stops for want of a victim, exactly according to
      whether everybody finds room at the first search; 491 processes always do. */
  method Simulate(c: Config) returns (ok: bool, s: Simulator)
    requires ConfigOk(c)
    ensures (ok <==> LR.Roomy(c)) && (|c.sizes| <= 491 ==> ok)
    ensures ok ==> s.Valid() && s.c == c && s.Done()
  {
    var machine := new Machine(|c.sizes|);
    s := new Simulator(c, machine);
    s.InitKernelData();
    ok := s.Run();
    if |c.sizes| <= 491 {
      LR.FewAreRoomy(c);
    }
  }

  /** Adding one access to a search that went through so far. */
  lemma SearchStep(k0: Kernel, n: nat, p: nat, pre: seq<nat>, draws: seq<nat>, k: Kernel, page: nat, draw: nat, rest: seq<nat>)
    requires p < n && |draws| == |pre| && Search(k0, n, p, pre, draws) == Some(k) && Shape(k, n)
    ensures Search(k0, n, p, pre + [page], draws + [draw]) == Access(k, p, page, draw)
    ensures Access(k, p, page, draw) == None ==>
              Search(k0, n, p, pre + [page] + rest, draws + [draw] + seq(|rest|, _ => 0)) == None
  {
    SearchAppend(k0, n, p, pre, draws, [page], [draw]);
    assert [page][1..] == [] && [draw][1..] == [];
    SearchAppend(k0, n, p, pre + [page], draws + [draw], rest, seq(|rest|, _ => 0));
  }
}
