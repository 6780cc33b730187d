/** What reference bits and histories say of the searches of a process: which of them touched a page. */
module LruUses {
  import opened SearchTrace
  import opened History
  import opened LruSpec
  import opened LruRuns
  import PR = PagingRuns

  /** The k-th search of process p touches page g. */
  predicate Uses(c: PR.Config, p: nat, k: nat, g: nat)
    requires p < |c.sizes| == |c.keys| && k < |c.keys[p]|
  {
    g in PagesFor(c.sizes[p], c.keys[p][k])
  }

  /** The record of page g of p, which has done `done` searches: whether each touched it, the latest first. */
  predicate TellsUses(c: PR.Config, p: nat, done: nat, g: nat, record: seq<bool>)
    requires p < |c.sizes| == |c.keys| && done <= |c.keys[p]|
  {
    |record| <= done && forall j | 0 <= j < |record| :: record[j] <==> Uses(c, p, done - 1 - j, g)
  }

  lemma TellsAll(c: PR.Config, p: nat, done: nat, g: nat, record: seq<bool>)
    requires p < |c.sizes| == |c.keys| && done <= |c.keys[p]| && TellsUses(c, p, done, g, record)
    ensures |record| <= done && forall h | 0 <= h < |record| :: record[h] <==> g in PagesFor(c.sizes[p], c.keys[p][done - 1 - h])
  {
    assert forall h | 0 <= h < |record| :: record[h] <==> Uses(c, p, done - 1 - h, g);
  }

  /** All of p's resident data pages have such records. */
  predicate Remembers(c: PR.Config, p: nat, done: nat, t: map<nat, Slot>)
    requires p < |c.sizes| == |c.keys| && done <= |c.keys[p]|
  {
    forall g | g in t && ESSENTIAL_PAGES <= g :: TellsUses(c, p, done, g, t[g].record)
  }

  /** The data pages with the reference bit are those touched in the present search. */
  predicate Marks(t: map<nat, Slot>, touched: seq<nat>) {
    forall g | g in t && ESSENTIAL_PAGES <= g :: t[g].ref <==> g in touched
  }

  /** Every record has been written at the end of a search. */
  predicate Written(t: map<nat, Slot>) {
    forall g | g in t && ESSENTIAL_PAGES <= g :: t[g].record != []
  }

  // ----- an access

  /** An access touches its page, which is loaded with nothing recorded if it was missing; of the others it
      may take one away. */
  predicate Touched(t: map<nat, Slot>, page: nat, u: map<nat, Slot>) {
    && page in u && u[page].ref && u[page].record == (if page in t then t[page].record else [])
    && forall g | g in u && g != page :: g in t && u[g].ref == t[g].ref && u[g].record == t[g].record
  }

  lemma AccessTouches(k: Kernel, p: nat, page: nat, draw: nat)
    requires Sized(k, p) && Access(k, p, page, draw).Some?
    ensures var t := Access(k, p, page, draw).value; |t.tables| == |k.tables| && Touched(k.tables[p], page, t.tables[p])
  {
  }

  lemma TouchedRemembers(c: PR.Config, p: nat, done: nat, t: map<nat, Slot>, page: nat, u: map<nat, Slot>, touched: seq<nat>)
    requires p < |c.sizes| == |c.keys| && done <= |c.keys[p]|
    requires Remembers(c, p, done, t) && Marks(t, touched) && Touched(t, page, u)
    ensures Remembers(c, p, done, u) && Marks(u, touched + [page])
  {
  }

  /** A search, or the first part of one. */
  lemma {:induction false} SearchRemembers(c: PR.Config, k: Kernel, n: nat, p: nat, done: nat, pages: seq<nat>, draws: seq<nat>, before: seq<nat>)
    requires p < |c.sizes| == |c.keys| && done <= |c.keys[p]| && p < n == |k.tables| && |draws| == |pages|
    requires Remembers(c, p, done, k.tables[p]) && Marks(k.tables[p], before) && Search(k, n, p, pages, draws).Some?
    ensures var t := Search(k, n, p, pages, draws).value;
      |t.tables| == n && Remembers(c, p, done, t.tables[p]) && Marks(t.tables[p], before + pages)
    decreases |pages|
  {
    if pages == [] {
      assert before + pages == before;
    } else {
      var k1 := Access(k, p, pages[0], draws[0]).value;
      AccessTouches(k, p, pages[0], draws[0]);
      TouchedRemembers(c, p, done, k.tables[p], pages[0], k1.tables[p], before);
      SearchRemembers(c, k1, n, p, done, pages[1..], draws[1..], before + [pages[0]]);
      assert before + [pages[0]] + pages[1..] == before + pages;
    }
  }

  // ----- a page loaded in a search

  /** After m accesses of this search page g is missing, and the next is to g. */
  predicate LoadedAt(k: Kernel, n: nat, p: nat, pages: seq<nat>, draws: seq<nat>, m: nat, g: nat)
    requires p < n && |draws| == |pages|
  {
    && m < |pages| && pages[m] == g
    && (var r := Search(k, n, p, pages[..m], draws[..m]); r.Some? && |r.value.tables| == n && g !in r.value.tables[p])
  }

  ghost predicate LoadedIn(k: Kernel, n: nat, p: nat, pages: seq<nat>, draws: seq<nat>, g: nat)
    requires p < n && |draws| == |pages|
  {
    exists m: nat :: LoadedAt(k, n, p, pages, draws, m, g)
  }

  /** Page g was there all along, with this record. */
  predicate Stayed(t: map<nat, Slot>, u: map<nat, Slot>, g: nat) {
    g in t && g in u && u[g].record == t[g].record
  }

  lemma LoadedLater(k: Kernel, n: nat, p: nat, pages: seq<nat>, draws: seq<nat>, g: nat)
    requires p < n && |draws| == |pages| && pages != [] && Shape(k, n) && Access(k, p, pages[0], draws[0]).Some?
    requires LoadedIn(Access(k, p, pages[0], draws[0]).value, n, p, pages[1..], draws[1..], g)
    ensures LoadedIn(k, n, p, pages, draws, g)
  {
    var k1 := Access(k, p, pages[0], draws[0]).value;
    var m: nat :| LoadedAt(k1, n, p, pages[1..], draws[1..], m, g);
    assert pages[..m + 1][1..] == pages[1..][..m] && draws[..m + 1][1..] == draws[1..][..m];
    assert LoadedAt(k, n, p, pages, draws, m + 1, g);
  }

  /** What is resident after a search was so before, with the same record, or was loaded in it and has none. */
  lemma {:induction false} SearchLoads(k: Kernel, n: nat, p: nat, pages: seq<nat>, draws: seq<nat>, g: nat)
    requires p < n == |k.tables| && |draws| == |pages| && Search(k, n, p, pages, draws).Some?
    ensures |Search(k, n, p, pages, draws).value.tables| == n
    ensures var u := Search(k, n, p, pages, draws).value.tables[p];
      g in u ==> Stayed(k.tables[p], u, g) || (LoadedIn(k, n, p, pages, draws, g) && u[g].record == [])
    decreases |pages|
  {
    if pages != [] {
      var k1 := Access(k, p, pages[0], draws[0]).value;
      AccessTouches(k, p, pages[0], draws[0]);
      SearchLoads(k1, n, p, pages[1..], draws[1..], g);
      if LoadedIn(k1, n, p, pages[1..], draws[1..], g) {
        LoadedLater(k, n, p, pages, draws, g);
      }
      if g == pages[0] && g !in k.tables[p] {
        assert pages[..0] == [] && draws[..0] == [];
        assert LoadedAt(k, n, p, pages, draws, 0, g);
      }
    }
  }

  // ----- the end of a search

  lemma AgeRemembers(c: PR.Config, k: Kernel, p: nat, done: nat, pages: seq<nat>)
    requires p < |c.sizes| == |c.keys| && done < |c.keys[p]| && p < |k.tables|
    requires Remembers(c, p, done, k.tables[p]) && Marks(k.tables[p], pages) && pages == PagesFor(c.sizes[p], c.keys[p][done])
    ensures var t := Age(k, p).tables[p];
      && Remembers(c, p, done + 1, t) && Marks(t, []) && Written(t) && t.Keys == k.tables[p].Keys
      && forall g | g in t && ESSENTIAL_PAGES <= g :: |t[g].record| == |k.tables[p][g].record| + 1
  {
  }

  // ----- how long a page has been there

  /** A page of a process between two turns: the table, the searches done, and whether the turn that comes
      loads it. */
  datatype Look = Look(t: map<nat, Slot>, done: nat, loads: bool)

  /** A page resident after a turn: nothing has changed for it, or its process has made one search more, or it
      has been loaded in this turn. */
  predicate Follows(a: Look, b: Look, g: nat) {
    g in b.t ==>
      || (g in a.t && b.done == a.done && |b.t[g].record| == |a.t[g].record|)
      || (g in a.t && b.done == a.done + 1 && |b.t[g].record| == |a.t[g].record| + 1)
      || (a.loads && b.done == a.done + 1 && |b.t[g].record| == 1)
  }

  /** The page has been resident since turn i, in which search number k of its process loaded it. */
  predicate Resident(looks: seq<Look>, j: nat, g: nat, i: nat, k: nat) {
    i < j < |looks| && looks[i].loads && looks[i].done == k && forall h | i < h <= j :: g in looks[h].t
  }

  /** A record has an entry for each search since the page was loaded. */
  lemma {:induction false} RecordSince(looks: seq<Look>, j: nat, g: nat, k: nat) returns (i: nat)
    requires j < |looks| && g !in looks[0].t && forall h | 0 < h <= j :: Follows(looks[h - 1], looks[h], g)
    requires g in looks[j].t && |looks[j].t[g].record| + k == looks[j].done
    ensures Resident(looks, j, g, i, k)
  {
    assert j > 0 && Follows(looks[j - 1], looks[j], g);
    if g in looks[j - 1].t && |looks[j - 1].t[g].record| + k == looks[j - 1].done {
      i := RecordSince(looks, j - 1, g, k);
    } else {
      i := j - 1;
    }
  }

  // ----- the victim

  /** As far as the history goes back: a search before the page was loaded counts as a use. */
  predicate Used(c: PR.Config, p: nat, done: nat, x: Slot, g: nat, j: nat)
    requires p < |c.sizes| == |c.keys| && done <= |c.keys[p]| && |x.record| <= done
  {
    j >= |x.record| || Uses(c, p, done - 1 - j, g)
  }

  /** At the latest of the last sixteen searches where they differ, h was used and g was not; or they do not
      differ and g has the lower number. */
  ghost predicate LessUsedPage(c: PR.Config, p: nat, done: nat, t: map<nat, Slot>, g: nat, h: nat)
    requires p < |c.sizes| == |c.keys| && done <= |c.keys[p]|
    requires g in t && h in t && |t[g].record| <= done && |t[h].record| <= done
  {
    || (exists i: nat :: i < WIDTH && UseDiffers(c, p, done, t, g, h, i))
    || (SameUses(c, p, done, t, g, h, WIDTH) && g <= h)
  }

  predicate UseDiffers(c: PR.Config, p: nat, done: nat, t: map<nat, Slot>, g: nat, h: nat, i: nat)
    requires p < |c.sizes| == |c.keys| && done <= |c.keys[p]|
    requires g in t && h in t && |t[g].record| <= done && |t[h].record| <= done
  {
    !Used(c, p, done, t[g], g, i) && Used(c, p, done, t[h], h, i) && SameUses(c, p, done, t, g, h, i)
  }

  predicate SameUses(c: PR.Config, p: nat, done: nat, t: map<nat, Slot>, g: nat, h: nat, i: nat)
    requires p < |c.sizes| == |c.keys| && done <= |c.keys[p]|
    requires g in t && h in t && |t[g].record| <= done && |t[h].record| <= done
  {
    forall j: nat | j < i :: Used(c, p, done, t[g], g, j) <==> Used(c, p, done, t[h], h, j)
  }

  lemma WindowTellsUses(c: PR.Config, p: nat, done: nat, x: Slot, g: nat, j: nat)
    requires p < |c.sizes| == |c.keys| && done <= |c.keys[p]| && TellsUses(c, p, done, g, x.record) && j < WIDTH
    ensures Window(x.record)[j] <==> Used(c, p, done, x, g, j)
  {
  }

  lemma LeastByUses(c: PR.Config, p: nat, done: nat, t: map<nat, Slot>, g: nat, h: nat)
    requires p < |c.sizes| == |c.keys| && done <= |c.keys[p]| && g in t && h in t
    requires TellsUses(c, p, done, g, t[g].record) && TellsUses(c, p, done, h, t[h].record)
    requires LessUsed(Window(t[g].record), Window(t[h].record)) || (Window(t[g].record) == Window(t[h].record) && g <= h)
    ensures LessUsedPage(c, p, done, t, g, h)
  {
    var a, b := Window(t[g].record), Window(t[h].record);
    forall j: nat | j < WIDTH
      ensures a[j] <==> Used(c, p, done, t[g], g, j)
      ensures b[j] <==> Used(c, p, done, t[h], h, j)
    {
      WindowTellsUses(c, p, done, t[g], g, j);
      WindowTellsUses(c, p, done, t[h], h, j);
    }
    if i :| 0 <= i < |a| && a[..i] == b[..i] && !a[i] && b[i] {
      assert forall j | 0 <= j < i :: a[j] == a[..i][j] && b[j] == b[..i][j];
      assert UseDiffers(c, p, done, t, g, h, i);
    }
  }

  /** The page an access takes away is, of the resident data pages, the one used least by the searches that
      the process has finished. */
  lemma VictimByUses(c: PR.Config, k: Kernel, p: nat, done: nat, page: nat, draw: nat, g: nat, h: nat)
    requires p < |c.sizes| == |c.keys| && done <= |c.keys[p]|
    requires Sized(k, p) && Recorded(k) && Remembers(c, p, done, k.tables[p]) && Access(k, p, page, draw).Some?
    requires g in k.tables[p] && g !in Access(k, p, page, draw).value.tables[p] && DataPage(k.tables[p], h)
    ensures DataPage(k.tables[p], g) && LessUsedPage(c, p, done, k.tables[p], g, h)
  {
    VictimFacts(k.tables[p]);
    VictimIsLeastUsed(k.tables[p], g, h);
    LeastByUses(c, p, done, k.tables[p], g, h);
  }
}
