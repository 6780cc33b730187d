/** The binary search both paging simulators replay, and the pages it touches. */
module SearchTrace {
  const ESSENTIAL_PAGES: nat := 10
  const PAGE_TABLE_SIZE: nat := 2048

  /** The largest array whose elements all have a page in the table: nothing beyond mid = size - 2 is read. */
  const MAX_SIZE: nat := (PAGE_TABLE_SIZE - ESSENTIAL_PAGES) * 1024 + 1

  /** The page of an element: four bytes each, 4096 to a page, after the essential pages. */
  function PageOf(element: nat): nat {
    ESSENTIAL_PAGES + (element * 4) / 4096
  }

  /** The pages touched, in order, when searching for `key` between left and right. */
  function Pages(left: nat, right: nat, key: int): seq<nat>
    decreases right - left
  {
    if left >= right then []
    else
      var mid := (left + right) / 2;
      [PageOf(mid)] + (if key <= mid then Pages(left, mid, key) else Pages(mid + 1, right, key))
  }

  /** The pages that the search for `key` in an array of this size touches, in order. */
  function PagesFor(size: nat, key: int): seq<nat> {
    if size == 0 then [] else Pages(0, size - 1, key)
  }

  /** Every page touched is a data page of the table. */
  lemma {:induction false} PagesInTable(left: nat, right: nat, key: int)
    requires right < MAX_SIZE
    ensures forall k | 0 <= k < |Pages(left, right, key)| :: ESSENTIAL_PAGES <= Pages(left, right, key)[k] < PAGE_TABLE_SIZE
    decreases right - left
  {
    if left < right {
      var mid := (left + right) / 2;
      if key <= mid {
        PagesInTable(left, mid, key);
      } else {
        PagesInTable(mid + 1, right, key);
      }
    }
  }

  function Halvings(len: nat): nat {
    if len == 0 then 0 else 1 + Halvings(len / 2)
  }

  lemma {:induction false} HalvingsMonotone(a: nat, b: nat)
    requires a <= b
    ensures Halvings(a) <= Halvings(b)
  {
    if a > 0 {
      HalvingsMonotone(a / 2, b / 2);
    }
  }

  /** A search makes at most one access per halving of the interval. */
  lemma {:induction false} PagesLength(left: nat, right: nat, key: int)
    ensures |Pages(left, right, key)| <= if left < right then Halvings(right - left) else 0
    decreases right - left
  {
    if left < right {
      var mid := (left + right) / 2;
      if key <= mid {
        PagesLength(left, mid, key);
        HalvingsMonotone(mid - left, (right - left) / 2);
      } else {
        PagesLength(mid + 1, right, key);
        if mid + 1 < right {
          HalvingsMonotone(right - mid - 1, (right - left) / 2);
        }
      }
    }
  }

  lemma PagesUnfold(left: nat, right: nat, key: int, pre: seq<nat>)
    requires left < right
    ensures var mid := (left + right) / 2;
            var rest := Pages(if key > mid then mid + 1 else left, if key <= mid then mid else right, key);
            (pre + [PageOf(mid)]) + rest == pre + Pages(left, right, key)
    ensures right < MAX_SIZE ==> ESSENTIAL_PAGES <= PageOf((left + right) / 2) < PAGE_TABLE_SIZE
  {
  }

  /** The elements looked at, in order. */
  function Probes(left: nat, right: nat, key: int): seq<nat>
    decreases right - left
  {
    if left >= right then []
    else
      var mid := (left + right) / 2;
      [mid] + (if key <= mid then Probes(left, mid, key) else Probes(mid + 1, right, key))
  }

  /** Comparing the key with element m tells it from e. */
  predicate TellsApart(m: nat, key: int, e: int) {
    (key <= m) != (e <= m)
  }

  predicate Tells(probes: seq<nat>, key: int, e: int) {
    exists k :: 0 <= k < |probes| && TellsApart(probes[k], key, e)
  }

  /** The elements looked at together tell the key from every other element: the search finds it. */
  lemma {:induction false} SearchFinds(left: nat, right: nat, key: int, e: int)
    requires left <= key <= right && left <= e <= right && e != key
    ensures Tells(Probes(left, right, key), key, e)
    decreases right - left
  {
    var mid := (left + right) / 2;
    var rest := if key <= mid then Probes(left, mid, key) else Probes(mid + 1, right, key);
    var probes := [mid] + rest;
    if TellsApart(mid, key, e) {
      assert probes[0] == mid;
    } else {
      if key <= mid {
        SearchFinds(left, mid, key, e);
      } else {
        SearchFinds(mid + 1, right, key, e);
      }
      var k :| 0 <= k < |rest| && TellsApart(rest[k], key, e);
      assert probes[k + 1] == rest[k];
    }
  }

  /** The pages touched are theirs: 1024 elements to a page, after the essential pages. */
  lemma {:induction false} PagesOfProbes(left: nat, right: nat, key: int)
    ensures var probes, pages := Probes(left, right, key), Pages(left, right, key);
            |probes| == |pages| && forall k | 0 <= k < |pages| :: pages[k] == ESSENTIAL_PAGES + probes[k] / 1024
    decreases right - left
  {
    if left < right {
      var mid := (left + right) / 2;
      if key <= mid {
        PagesOfProbes(left, mid, key);
      } else {
        PagesOfProbes(mid + 1, right, key);
      }
    }
  }

  function Distinct(pages: seq<nat>): set<nat> {
    set g | g in pages
  }

  /** Few distinct pages: one for each halving down to 1024 elements, and at most two after that. */
  lemma {:induction false} FewPages(left: nat, right: nat, key: int, h: nat, reach: nat)
    requires reach == Reach(h) && right <= left + reach
    ensures |Distinct(Pages(left, right, key))| <= h + 2
    decreases h
  {
    var pages := Pages(left, right, key);
    if left >= right {
      assert Distinct(pages) == {};
    } else if h == 0 {
      TwoPages(left, right, key);
    } else {
      var mid := (left + right) / 2;
      var rest := if key <= mid then Pages(left, mid, key) else Pages(mid + 1, right, key);
      assert pages == [PageOf(mid)] + rest;
      if key <= mid {
        FewPages(left, mid, key, h - 1, reach / 2);
      } else {
        FewPages(mid + 1, right, key, h - 1, reach / 2);
      }
      assert Distinct(pages) == Distinct(rest) + {PageOf(mid)};
    }
  }

  lemma TwoPages(left: nat, right: nat, key: int)
    requires left < right <= left + 1024
    ensures |Distinct(Pages(left, right, key))| <= 2
  {
    PagesWithin(left, right, key);
    var lo := PageOf(left);
    assert Distinct(Pages(left, right, key)) <= {lo, lo + 1};
    SubsetSize(Distinct(Pages(left, right, key)), {lo, lo + 1});
  }

  function Reach(h: nat): nat {
    if h == 0 then 1024 else 2 * Reach(h - 1)
  }

  lemma {:induction false} PagesWithin(left: nat, right: nat, key: int)
    requires left < right
    ensures forall k | 0 <= k < |Pages(left, right, key)| ::
              PageOf(left) <= Pages(left, right, key)[k] <= PageOf(right - 1)
    decreases right - left
  {
    var mid := (left + right) / 2;
    if key <= mid {
      if left < mid {
        PagesWithin(left, mid, key);
      }
    } else if mid + 1 < right {
      PagesWithin(mid + 1, right, key);
    }
  }

  lemma {:induction false} SubsetSize(a: set<nat>, b: set<nat>)
    requires a <= b
    ensures |a| <= |b|
  {
    if a != {} {
      var x :| x in a;
      SubsetSize(a - {x}, b - {x});
    }
  }

  /** Any search in an array that fits the page table touches at most thirteen pages. */
  lemma ThirteenPages(size: nat, key: int)
    requires 0 < size <= MAX_SIZE
    ensures |Distinct(Pages(0, size - 1, key))| <= 13
  {
    assert Reach(4) == 16384 && Reach(8) == 262144 && Reach(11) == 2097152;
    FewPages(0, size - 1, key, 11, 2097152);
  }
}
