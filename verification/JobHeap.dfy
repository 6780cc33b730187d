/** The second simulator's event queue: a heap of process numbers, ordered by eventcmp on the records. */
module JobHeap {
  import opened HeapOrder

  /** The changing part of a job record: the next event's time and kind, the burst and what is left of it. */
  datatype Rec = Rec(time: int, state: int, bno: nat, rbt: int)

  function KeyOf(ids: seq<int>, js: seq<Rec>, x: nat): Key
    requires x < |ids| == |js|
  {
    Key(js[x].time, js[x].state, ids[x])
  }

  /** By time, then state, then serial number. */
  function EventCmp(ids: seq<int>, js: seq<Rec>, a: nat, b: nat): int
    requires a < |ids| && b < |ids| && |ids| == |js|
  {
    if js[a].time < js[b].time then -1
    else if js[a].time > js[b].time then 1
    else if js[a].state < js[b].state then -1
    else if js[a].state > js[b].state then 1
    else if ids[a] < ids[b] then -1
    else if ids[a] > ids[b] then 1
    else 0
  }

  /** Unlike compare_events this is an order on all records. */
  lemma EventCmpIsOrder(ids: seq<int>, js: seq<Rec>, a: nat, b: nat)
    requires a < |ids| && b < |ids| && |ids| == |js|
    ensures EventCmp(ids, js, a, b) < 0 <==> Less(KeyOf(ids, js, a), KeyOf(ids, js, b))
    ensures EventCmp(ids, js, a, b) > 0 <==> Less(KeyOf(ids, js, b), KeyOf(ids, js, a))
  {
  }

  ghost predicate Good(n: nat, h: seq<nat>) {
    forall i | 0 <= i < |h| :: h[i] < n
  }

  function Keys(ids: seq<int>, js: seq<Rec>, h: seq<nat>): (ks: seq<Key>)
    requires |ids| == |js| && Good(|ids|, h)
    ensures |ks| == |h|
  {
    seq(|h|, i requires 0 <= i < |h| => KeyOf(ids, js, h[i]))
  }

  lemma GoodSwap(ids: seq<int>, js: seq<Rec>, h: seq<nat>, i: nat, k: nat)
    requires |ids| == |js| && Good(|ids|, h) && i < |h| && k < |h|
    ensures Good(|ids|, Swap(h, i, k)) && multiset(Swap(h, i, k)) == multiset(h)
    ensures Keys(ids, js, Swap(h, i, k)) == Swap(Keys(ids, js, h), i, k)
  {
  }

  lemma GoodDrop(ids: seq<int>, js: seq<Rec>, h: seq<nat>)
    requires |ids| == |js| && Good(|ids|, h) && |h| > 0
    ensures Good(|ids|, LastToFront(h))
    ensures Keys(ids, js, LastToFront(h)) == LastToFront(Keys(ids, js, h))
  {
  }

  lemma RootComesFirst(ids: seq<int>, js: seq<Rec>, h: seq<nat>, x: nat)
    requires |ids| == |js| && Good(|ids|, h) && |h| > 0 && Heap(Keys(ids, js, h)) && x in multiset(h)
    ensures x < |ids| && EventCmp(ids, js, x, h[0]) >= 0
  {
    var i :| 0 <= i < |h| && h[i] == x;
    RootIsLeast(Keys(ids, js, h), i);
    EventCmpIsOrder(ids, js, x, h[0]);
  }

  function Numbers(n: nat): seq<nat> {
    seq(n, i => i)
  }

  class EventQ {
    const ids: seq<int>
    const J: array<Rec>
    const H: array<nat>
    var size: nat

    ghost predicate Valid()
      reads this, H
    {
      |ids| == J.Length && size <= H.Length && Good(|ids|, H[..size])
    }

    ghost function Contents(): multiset<nat>
      reads this, H
      requires size <= H.Length
    {
      multiset(H[..size])
    }

    ghost function Ks(): seq<Key>
      reads this, H, J
      requires Valid()
    {
      Keys(ids, J[..], H[..size])
    }

    ghost predicate Ordered()
      reads this, H, J
      requires Valid()
    {
      Heap(Ks())
    }

    /** All processes, in no particular order. */
    constructor (ids: seq<int>, J: array<Rec>)
      requires |ids| == J.Length
      ensures Valid() && fresh(H) && this.ids == ids && this.J == J && H.Length == |ids|
      ensures H[..size] == Numbers(|ids|)
    {
      this.ids, this.J := ids, J;
      size := |ids|;
      H := new nat[|ids|](i => i);
      new;
      assert H[..size] == Numbers(|ids|);
    }

    method Compare(a: nat, b: nat) returns (c: int)
      requires a < |ids| && b < |ids| && |ids| == J.Length
      ensures c < 0 <==> Less(KeyOf(ids, J[..], a), KeyOf(ids, J[..], b))
      ensures c > 0 <==> Less(KeyOf(ids, J[..], b), KeyOf(ids, J[..], a))
    {
      EventCmpIsOrder(ids, J[..], a, b);
      c := EventCmp(ids, J[..], a, b);
    }

    method SwapAt(i: nat, k: nat)
      requires Valid() && i < size && k < size
      modifies H
      ensures Valid() && Contents() == old(Contents())
      ensures Ks() == Swap(old(Ks()), i, k)
    {
      ghost var h := H[..size];
      var t := H[i];
      H[i] := H[k];
      H[k] := t;
      assert H[..size] == Swap(h, i, k);
      GoodSwap(ids, J[..], h, i, k);
    }

    /** The lesser child of i. */
    method LesserChild(i: nat) returns (min: nat)
      requires Valid() && 2 * i + 1 < size
      ensures min < size && 0 < min && Parent(min) == i
      ensures forall c | 0 < c < size && Parent(c) == i :: !Less(Ks()[c], Ks()[min])
    {
      var l := 2 * i + 1;
      var r := 2 * i + 2;
      assert forall c | 0 < c < size && Parent(c) == i :: c == l || c == r;
      assert forall c | 0 <= c < size :: H[..size][c] == H[c];
      if r == size {
        return l;
      }
      var c := Compare(H[l], H[r]);
      min := if c < 0 then l else r;
    }

    /** Lets the element at `from` sink to its place. */
    method Heapify(from: nat)
      requires Valid() && SinkingAt(Ks(), from, from)
      modifies H
      ensures Valid() && HeapFrom(Ks(), from) && Contents() == old(Contents())
    {
      var i := from;
      while true
        invariant Valid() && Contents() == old(Contents())
        invariant SinkingAt(Ks(), from, i)
        decreases size - i
      {
        if 2 * i + 1 >= size {
          SinkDone(Ks(), from, i);
          return;
        }
        var min := LesserChild(i);
        assert H[..size][min] == H[min] && H[..size][i] == H[i];
        var c := Compare(H[min], H[i]);
        if c > 0 {
          SinkDone(Ks(), from, i);
          return;
        }
        SinkStep(Ks(), from, i, min);
        SwapAt(i, min);
        i := min;
      }
    }

    /** Makes a heap of all elements, from the last parent back to the root. */
    method MakeHeap()
      requires Valid()
      modifies H
      ensures Valid() && Ordered() && Contents() == old(Contents())
    {
      var i: nat := size / 2;
      while i > 0
        invariant Valid() && Contents() == old(Contents()) && i <= size / 2
        invariant HeapFrom(Ks(), i)
      {
        i := i - 1;
        Heapify(i);
      }
    }

    method Insert(x: nat)
      requires Valid() && Ordered() && size < H.Length && x < |ids|
      modifies this`size, H
      ensures Valid() && Ordered()
      ensures Contents() == old(Contents()) + multiset{x}
      ensures size == old(size) + 1
    {
      ghost var h := H[..size];
      H[size] := x;
      var i := size;
      size := size + 1;
      assert H[..size] == h + [x];
      Appended(Keys(ids, J[..], h), KeyOf(ids, J[..], x));
      assert Ks() == Keys(ids, J[..], h) + [KeyOf(ids, J[..], x)];
      assert multiset(h + [x]) == multiset(h) + multiset{x};
      Rise(i, x);
    }

    /** Lets the element x at `from` rise to its place. */
    method Rise(from: nat, x: nat)
      requires Valid() && from < size && H[from] == x && RisingAt(Ks(), from)
      modifies H
      ensures Valid() && Ordered() && Contents() == old(Contents())
    {
      var i: nat := from;
      while true
        invariant Valid() && i < size && H[i] == x && Contents() == old(Contents())
        invariant RisingAt(Ks(), i)
        decreases i
      {
        if i == 0 {
          return;
        }
        var p := (i - 1) / 2;
        assert H[..size][p] == H[p] && H[..size][i] == H[i];
        var c := Compare(H[p], H[i]);
        if c < 0 {
          return;
        }
        RiseStep(Ks(), i);
        Up(p, i, x);
        i := p;
      }
    }

    method Up(p: nat, i: nat, x: nat)
      requires Valid() && p < i < size && H[i] == x
      modifies H
      ensures Valid() && Contents() == old(Contents()) && H[p] == x
      ensures Ks() == Swap(old(Ks()), p, i)
    {
      ghost var h := H[..size];
      H[i] := H[p];
      H[p] := x;
      assert H[..size] == Swap(h, p, i);
      GoodSwap(ids, J[..], h, p, i);
    }

    /** The least element; nothing when the heap is empty, where the program exits. */
    method First() returns (ok: bool, x: nat)
      requires Valid() && Ordered()
      ensures ok <==> Contents() != multiset{}
      ensures ok ==> x < |ids| && forall y | y in Contents() :: y < |ids| && EventCmp(ids, J[..], y, x) >= 0
      ensures ok ==> size > 0 && x == H[0]
    {
      if size == 0 {
        return false, 0;
      }
      ok, x := true, H[0];
      assert x in H[..size];
      forall y | y in Contents()
        ensures y < |ids| && EventCmp(ids, J[..], y, x) >= 0
      {
        RootComesFirst(ids, J[..], H[..size], y);
      }
    }

    /** Takes the least element out; refused when the heap is empty, where the program exits. */
    method DelMin() returns (ok: bool)
      requires Valid() && Ordered()
      modifies this`size, H
      ensures Valid() && Ordered()
      ensures ok <==> old(size) > 0
      ensures ok ==> old(Contents()) == Contents() + multiset{old(H[0])}
      ensures size == if ok then old(size) - 1 else old(size)
      ensures !ok ==> Contents() == old(Contents())
    {
      if size == 0 {
        return false;
      }
      ghost var h := H[..size];
      LastReplacesFirst(h);
      DropRoot();
      Heapify(0);
      ok := true;
    }

    method DropRoot()
      requires Valid() && Ordered() && size > 0
      modifies this`size, H
      ensures size == old(size) - 1
      ensures H[..size] == LastToFront(old(H[..size])) && Valid()
      ensures SinkingAt(Ks(), 0, 0)
    {
      ghost var h := H[..size];
      GoodDrop(ids, J[..], h);
      size := size - 1;
      H[0] := H[size];
      if size > 0 {
        RootReplaced(Keys(ids, J[..], h));
      }
      assert H[..size] == LastToFront(h);
    }
  }
}
