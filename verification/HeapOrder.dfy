/** Binary heaps in a sequence, ordered by time, then class, then process number. */
module HeapOrder {
  datatype Key = Key(time: int, class_: int, id: int)

  predicate Less(a: Key, b: Key) {
    a.time < b.time || (a.time == b.time && (a.class_ < b.class_ || (a.class_ == b.class_ && a.id < b.id)))
  }

  function Parent(i: nat): nat
    requires i > 0
  {
    (i - 1) / 2
  }

  /** Every element from the children of k on is no less than its parent. */
  predicate HeapFrom(s: seq<Key>, k: nat) {
    forall i | 0 < i < |s| && k <= Parent(i) :: !Less(s[i], s[Parent(i)])
  }

  predicate Heap(s: seq<Key>) {
    HeapFrom(s, 0)
  }

  function Swap<T>(s: seq<T>, i: nat, j: nat): seq<T>
    requires i < |s| && j < |s|
  {
    s[i := s[j]][j := s[i]]
  }

  /** A heap but for the element at cur, which may be less than its parent. */
  predicate RisingAt(s: seq<Key>, cur: nat) {
    && cur < |s|
    && (forall i | 0 < i < |s| && i != cur :: !Less(s[i], s[Parent(i)]))
    && (cur > 0 ==> forall i | 0 < i < |s| && Parent(i) == cur :: !Less(s[i], s[Parent(cur)]))
  }

  lemma RiseStep(s: seq<Key>, cur: nat)
    requires RisingAt(s, cur) && cur > 0 && !Less(s[Parent(cur)], s[cur])
    ensures RisingAt(Swap(s, Parent(cur), cur), Parent(cur))
  {
    var p := Parent(cur);
    var t := Swap(s, p, cur);
    forall i | 0 < i < |t| && i != p
      ensures !Less(t[i], t[Parent(i)])
    {
      assert i != cur ==> !Less(s[i], s[Parent(i)]);
    }
    if p > 0 {
      assert !Less(s[p], s[Parent(p)]);
      forall i | 0 < i < |t| && Parent(i) == p
        ensures !Less(t[i], t[Parent(p)])
      {
        assert i != cur ==> !Less(s[i], s[p]);
      }
    }
  }

  lemma RiseDone(s: seq<Key>, cur: nat)
    requires RisingAt(s, cur) && (cur == 0 || !Less(s[cur], s[Parent(cur)]))
    ensures Heap(s)
  {
  }

  /** A heap from k on but for the element at cur, which may be greater than its children. */
  predicate SinkingAt(s: seq<Key>, k: nat, cur: nat) {
    && k <= cur
    && (forall i | 0 < i < |s| && k <= Parent(i) && Parent(i) != cur :: !Less(s[i], s[Parent(i)]))
    && (cur > 0 && k <= Parent(cur) && cur < |s| ==>
          forall i | 0 < i < |s| && Parent(i) == cur :: !Less(s[i], s[Parent(cur)]))
  }

  lemma SinkStep(s: seq<Key>, k: nat, cur: nat, child: nat)
    requires SinkingAt(s, k, cur) && 0 < child < |s| && Parent(child) == cur
    requires !Less(s[cur], s[child])
    requires forall i | 0 < i < |s| && Parent(i) == cur :: !Less(s[i], s[child])
    ensures SinkingAt(Swap(s, cur, child), k, child)
  {
  }

  lemma SinkDone(s: seq<Key>, k: nat, cur: nat)
    requires SinkingAt(s, k, cur)
    requires forall i | 0 < i < |s| && Parent(i) == cur :: !Less(s[i], s[cur])
    ensures HeapFrom(s, k)
  {
  }

  /** The root of a heap is least. */
  lemma {:induction false} RootIsLeast(s: seq<Key>, i: nat)
    requires Heap(s) && i < |s|
    ensures !Less(s[i], s[0])
    decreases i
  {
    if i > 0 {
      RootIsLeast(s, Parent(i));
      assert !Less(s[i], s[Parent(i)]);
    }
  }

  /** The last element put in place of the first, and dropped at the end. */
  function LastToFront<T>(s: seq<T>): seq<T>
    requires |s| > 0
  {
    s[0 := s[|s| - 1]][..|s| - 1]
  }

  lemma LastReplacesFirst<T>(s: seq<T>)
    requires |s| > 0
    ensures multiset(s) == multiset(LastToFront(s)) + multiset{s[0]}
  {
    var front, last := s[..|s| - 1], s[|s| - 1];
    assert s == front + [last];
    if |s| > 1 {
      assert front == [s[0]] + front[1..];
      assert LastToFront(s) == [last] + front[1..];
    }
  }

  /** Replacing the root by the last element, then dropping it, leaves a heap but for the root. */
  lemma RootReplaced(s: seq<Key>)
    requires Heap(s) && |s| > 1
    ensures SinkingAt(LastToFront(s), 0, 0)
  {
  }

  lemma Appended(s: seq<Key>, k: Key)
    requires Heap(s)
    ensures RisingAt(s + [k], |s|)
  {
  }
}
