/** The first simulator's event queue: a heap of events in an array, ordered by compare_events. */
module EventHeap {
  import opened HeapOrder
  import opened ReadyQueue

  datatype EventType = PROCESS_ARRIVAL | CPU_BURST_END | IO_BURST_END | CPU_TIMEOUT

  datatype Event = Event(time: int, p: nat, kind: EventType)

  predicate Joins(k: EventType) {
    k == PROCESS_ARRIVAL || k == IO_BURST_END
  }

  /** By time; at one time arrivals go before time-outs; otherwise by process number. */
  function CompareEvents(ids: seq<int>, a: Event, b: Event): int
    requires a.p < |ids| && b.p < |ids|
  {
    if a.time != b.time then a.time - b.time
    else if a.kind != b.kind && Joins(a.kind) && b.kind == CPU_TIMEOUT then -1
    else if a.kind != b.kind && Joins(b.kind) && a.kind == CPU_TIMEOUT then 1
    else ids[a.p] - ids[b.p]
  }

  /** A time-out and a burst end: the two kinds of which there is never more than one event in all. */
  predicate Clash(a: EventType, b: EventType) {
    (a == CPU_TIMEOUT && b == CPU_BURST_END) || (a == CPU_BURST_END && b == CPU_TIMEOUT)
  }

  /** The comparison has cycles: arrival of 3 < time-out of 1 < burst end of 2 < arrival of 3. */
  lemma CompareHasCycles(t: int)
    ensures var ids := [3, 1, 2];
            var a, b, c := Event(t, 0, PROCESS_ARRIVAL), Event(t, 1, CPU_TIMEOUT), Event(t, 2, CPU_BURST_END);
            CompareEvents(ids, a, b) < 0 && CompareEvents(ids, b, c) < 0 && CompareEvents(ids, c, a) < 0
  {
  }

  function KeyOf(ids: seq<int>, e: Event): Key
    requires e.p < |ids|
  {
    Key(e.time, if e.kind == CPU_TIMEOUT then 1 else 0, ids[e.p])
  }

  /** Away from the one clash, the comparison is the order of the keys. */
  lemma CompareIsOrder(ids: seq<int>, a: Event, b: Event)
    requires a.p < |ids| && b.p < |ids|
    ensures !Clash(a.kind, b.kind) ==> (CompareEvents(ids, a, b) < 0 <==> Less(KeyOf(ids, a), KeyOf(ids, b)))
    ensures !Clash(a.kind, b.kind) ==> (CompareEvents(ids, a, b) > 0 <==> Less(KeyOf(ids, b), KeyOf(ids, a)))
  {
  }

  ghost predicate Fits(ids: seq<int>, m: multiset<Event>) {
    && (forall a | a in m :: a.p < |ids|)
    && (forall a, b | a in m && b in m :: !Clash(a.kind, b.kind))
  }

  /** Among events without a clash, one for each process at most, the comparison is a strict total order. */
  lemma CompareIsTotal(ids: seq<int>, m: multiset<Event>, a: Event, b: Event, c: Event)
    requires Fits(ids, m) && a in m && b in m && c in m
    requires forall x, y | x in m && y in m && x != y :: x.p != y.p
    requires forall i, k | 0 <= i < k < |ids| :: ids[i] != ids[k]
    ensures a == b || CompareEvents(ids, a, b) < 0 || CompareEvents(ids, b, a) < 0
    ensures !(CompareEvents(ids, a, b) < 0 && CompareEvents(ids, b, a) < 0)
    ensures CompareEvents(ids, a, b) < 0 && CompareEvents(ids, b, c) < 0 ==> CompareEvents(ids, a, c) < 0
  {
  }

  function Keys(ids: seq<int>, s: seq<Event>): (ks: seq<Key>)
    requires forall i | 0 <= i < |s| :: s[i].p < |ids|
    ensures |ks| == |s|
  {
    seq(|s|, i requires 0 <= i < |s| => KeyOf(ids, s[i]))
  }

  /** No two of the events clash. */
  ghost predicate NoClash(s: seq<Event>) {
    forall i, k | 0 <= i < |s| && 0 <= k < |s| :: !Clash(s[i].kind, s[k].kind)
  }

  ghost predicate Good(ids: seq<int>, s: seq<Event>) {
    && (forall i | 0 <= i < |s| :: s[i].p < |ids|)
    && NoClash(s)
  }

  lemma GoodAppend(ids: seq<int>, s: seq<Event>, e: Event)
    requires Good(ids, s) && Fits(ids, multiset(s) + multiset{e})
    ensures Good(ids, s + [e]) && multiset(s + [e]) == multiset(s) + multiset{e}
    ensures Keys(ids, s + [e]) == Keys(ids, s) + [KeyOf(ids, e)]
  {
  }

  lemma GoodSwap(ids: seq<int>, s: seq<Event>, i: nat, k: nat)
    requires Good(ids, s) && i < |s| && k < |s|
    ensures Good(ids, Swap(s, i, k)) && multiset(Swap(s, i, k)) == multiset(s)
    ensures Keys(ids, Swap(s, i, k)) == Swap(Keys(ids, s), i, k)
  {
  }

  lemma GoodDrop(ids: seq<int>, s: seq<Event>)
    requires Good(ids, s) && |s| > 0
    ensures Good(ids, LastToFront(s))
    ensures Keys(ids, LastToFront(s)) == LastToFront(Keys(ids, s))
  {
  }

  /** The root compares before none of the others. */
  lemma RootComesFirst(ids: seq<int>, s: seq<Event>, e: Event)
    requires Good(ids, s) && |s| > 0 && Heap(Keys(ids, s)) && e in multiset(s)
    ensures e.p < |ids| && CompareEvents(ids, e, s[0]) >= 0
  {
    var i :| 0 <= i < |s| && s[i] == e;
    RootIsLeast(Keys(ids, s), i);
    CompareIsOrder(ids, e, s[0]);
  }

  class EventQueue {
    const ids: seq<int>
    const data: array<Event>
    var size: nat

    ghost predicate Valid()
      reads this, data
    {
      data.Length == 4 * MAX_PROCESSES && size <= data.Length && Good(ids, data[..size])
    }

    ghost function Contents(): multiset<Event>
      reads this, data
      requires size <= data.Length
    {
      multiset(data[..size])
    }

    ghost function Ks(): seq<Key>
      reads this, data
      requires Valid()
    {
      Keys(ids, data[..size])
    }

    /** Heap order. */
    ghost predicate Ordered()
      reads this, data
      requires Valid()
    {
      Heap(Ks())
    }

    constructor (ids: seq<int>)
      ensures Valid() && Ordered() && Contents() == multiset{} && fresh(data) && this.ids == ids
    {
      this.ids := ids;
      data := new Event[4 * MAX_PROCESSES](_ => Event(0, 0, PROCESS_ARRIVAL));
      size := 0;
    }

    method SwapEvents(i: nat, k: nat)
      requires Valid() && i < size && k < size
      modifies data
      ensures Valid() && Contents() == old(Contents())
      ensures Ks() == Swap(old(Ks()), i, k)
    {
      ghost var s := data[..size];
      data[i], data[k] := data[k], data[i];
      assert data[..size] == Swap(s, i, k);
      GoodSwap(ids, s, i, k);
    }

    /** Lets the element at `from` rise to its place. */
    method Rise(from: nat)
      requires Valid() && from < size && RisingAt(Ks(), from)
      modifies data
      ensures Valid() && Ordered() && Contents() == old(Contents())
    {
      var current: nat := from;
      while current > 0
        invariant Valid() && current < size && Contents() == old(Contents())
        invariant RisingAt(Ks(), current)
      {
        var parent := (current - 1) / 2;
        assert data[..size][parent] == data[parent] && data[..size][current] == data[current];
        CompareIsOrder(ids, data[parent], data[current]);
        if CompareEvents(ids, data[parent], data[current]) > 0 {
          RiseStep(Ks(), current);
          SwapEvents(parent, current);
          current := parent;
        } else {
          break;
        }
      }
      RiseDone(Ks(), current);
    }

    method Push(event: Event)
      requires Valid() && Ordered() && size < data.Length
      requires Fits(ids, Contents() + multiset{event})
      modifies this`size, data
      ensures Valid() && Ordered()
      ensures Contents() == old(Contents()) + multiset{event}
      ensures size == old(size) + 1
    {
      ghost var s := data[..size];
      GoodAppend(ids, s, event);
      data[size] := event;
      size := size + 1;
      assert data[..size] == s + [event];
      Appended(Keys(ids, s), KeyOf(ids, event));
      Rise(size - 1);
    }

    /** The least of an element and its children. */
    method Smallest(current: nat) returns (smallest: nat)
      requires Valid() && current < size
      ensures smallest < size && (smallest == current || (smallest > 0 && Parent(smallest) == current))
      ensures !Less(Ks()[current], Ks()[smallest])
      ensures forall i | 0 < i < size && Parent(i) == current :: !Less(Ks()[i], Ks()[smallest])
    {
      assert forall i | 0 <= i < size :: data[..size][i] == data[i];
      var left := 2 * current + 1;
      var right := 2 * current + 2;
      smallest := current;
      if left < size {
        CompareIsOrder(ids, data[left], data[smallest]);
        if CompareEvents(ids, data[left], data[smallest]) < 0 {
          smallest := left;
        }
      }
      if right < size {
        CompareIsOrder(ids, data[right], data[smallest]);
        if CompareEvents(ids, data[right], data[smallest]) < 0 {
          smallest := right;
        }
      }
    }

    /** Lets the root sink to its place. */
    method Sink()
      requires Valid() && size > 0 && SinkingAt(Ks(), 0, 0)
      modifies data
      ensures Valid() && Ordered() && Contents() == old(Contents())
    {
      var current := 0;
      while true
        invariant Valid() && current < size && Contents() == old(Contents())
        invariant SinkingAt(Ks(), 0, current)
        decreases size - current
      {
        var smallest := Smallest(current);
        if smallest == current {
          break;
        }
        SinkStep(Ks(), 0, current, smallest);
        SwapEvents(current, smallest);
        current := smallest;
      }
      SinkDone(Ks(), 0, current);
    }

    /** Takes the least event out: none of the others compares before it. */
    method Pop() returns (result: Event)
      requires Valid() && Ordered() && size > 0
      modifies this`size, data
      ensures Valid() && Ordered()
      ensures old(Contents()) == Contents() + multiset{result}
      ensures size == old(size) - 1
      ensures result.p < |ids| && forall e | e in old(Contents()) :: e.p < |ids| && CompareEvents(ids, e, result) >= 0
    {
      ghost var s := data[..size];
      result := data[0];
      assert result == s[0];
      forall e | e in multiset(s)
        ensures e.p < |ids| && CompareEvents(ids, e, result) >= 0
      {
        RootComesFirst(ids, s, e);
      }
      DropRoot();
      LastReplacesFirst(s);
      if size > 0 {
        Sink();
      }
    }

    method DropRoot()
      requires Valid() && Ordered() && size > 0
      modifies this`size, data
      ensures size == old(size) - 1
      ensures data[..size] == LastToFront(old(data[..size])) && Valid()
      ensures size > 0 ==> SinkingAt(Ks(), 0, 0)
    {
      ghost var s := data[..size];
      GoodDrop(ids, s);
      size := size - 1;
      if size > 0 {
        data[0] := data[size];
        RootReplaced(Keys(ids, s));
      }
      assert data[..size] == LastToFront(s);
    }
  }
}
