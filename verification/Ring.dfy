/** A circular queue of process numbers, as large as the number of processes; `rear` is the next free cell. */
module Ring {
  /** x reduced to a cell number, for x less than twice around. */
  function Wrap(x: nat, n: nat): (r: nat)
    requires x < 2 * n
    ensures r < n
  {
    if x < n then x else x - n
  }

  lemma WrapIsMod(x: nat, n: nat)
    requires x < 2 * n
    ensures x % n == Wrap(x, n)
  {
  }

  class Ring {
    const data: array<nat>
    var front: nat
    var rear: nat
    var count: nat
    ghost var Contents: seq<nat>

    ghost predicate Valid()
      reads this, data
    {
      && count == |Contents| <= data.Length
      && (data.Length > 0 ==>
            front < data.Length && rear == Wrap(front + count, data.Length)
            && forall k | 0 <= k < count :: data[Wrap(front + k, data.Length)] == Contents[k])
    }

    constructor (n: nat)
      ensures Valid() && fresh(data) && data.Length == n && Contents == []
    {
      data := new nat[n];
      front, rear, count := 0, 0, 0;
      Contents := [];
    }

    method PushBack(x: nat)
      requires Valid() && |Contents| < data.Length
      modifies this, data
      ensures Valid() && Contents == old(Contents) + [x]
    {
      data[rear] := x;
      WrapIsMod(rear + 1, data.Length);
      rear := (rear + 1) % data.Length;
      count := count + 1;
      Contents := Contents + [x];
    }

    method PopFront() returns (x: nat)
      requires Valid() && Contents != []
      modifies this
      ensures Valid() && old(Contents) == [x] + Contents
    {
      x := data[front];
      assert x == data[Wrap(front + 0, data.Length)];
      WrapIsMod(front + 1, data.Length);
      front := (front + 1) % data.Length;
      count := count - 1;
      Contents := Contents[1..];
    }

    method PushFront(x: nat)
      requires Valid() && |Contents| < data.Length
      modifies this, data
      ensures Valid() && Contents == [x] + old(Contents)
    {
      WrapIsMod(front - 1 + data.Length, data.Length);
      front := (front - 1 + data.Length) % data.Length;
      data[front] := x;
      count := count + 1;
      Contents := [x] + Contents;
    }
  }
}
