/** A queue in a fixed circular buffer, with front, rear and size kept side by side. */
module RingQueue {
  import R = Ring

  const MAX_QUEUE_SIZE: nat := 100

  class RingQueue<T(0)> {
    const queue: array<T>
    var size: int
    var front: int
    var rear: int
    ghost var Contents: seq<T>

    ghost predicate Valid()
      reads this, queue
    {
      && queue.Length == MAX_QUEUE_SIZE
      && 0 <= size <= MAX_QUEUE_SIZE && 0 <= front < MAX_QUEUE_SIZE && -1 <= rear < MAX_QUEUE_SIZE
      && R.Wrap(front + size, MAX_QUEUE_SIZE) == R.Wrap(rear + 1, MAX_QUEUE_SIZE)
      && |Contents| == size
      && forall k | 0 <= k < size :: queue[R.Wrap(front + k, MAX_QUEUE_SIZE)] == Contents[k]
    }

    constructor ()
      ensures Valid() && fresh(queue) && Contents == []
    {
      queue := new T[MAX_QUEUE_SIZE];
      size, front, rear := 0, 0, -1;
      Contents := [];
    }

    method IsEmpty() returns (b: bool)
      requires Valid()
      ensures b <==> Contents == []
    {
      b := size == 0;
    }

    /** Appends x; a full queue is an overflow and stays as it is. */
    method Enqueue(x: T) returns (ok: bool)
      requires Valid()
      modifies this, queue
      ensures Valid()
      ensures ok <==> |old(Contents)| < MAX_QUEUE_SIZE
      ensures Contents == if ok then old(Contents) + [x] else old(Contents)
    {
      if size == MAX_QUEUE_SIZE {
        return false;
      }
      R.WrapIsMod(rear + 1, MAX_QUEUE_SIZE);
      rear := (rear + 1) % MAX_QUEUE_SIZE;
      queue[rear] := x;
      size := size + 1;
      Contents := Contents + [x];
      ok := true;
    }

    /** Removes the oldest element, if there is one. */
    method Dequeue() returns (ok: bool, x: T)
      requires Valid()
      modifies this
      ensures Valid()
      ensures ok <==> old(Contents) != []
      ensures if ok then old(Contents) == [x] + Contents else Contents == []
    {
      x := queue[front];
      if size == 0 {
        return false, x;
      }
      assert x == queue[R.Wrap(front + 0, MAX_QUEUE_SIZE)];
      R.WrapIsMod(front + 1, MAX_QUEUE_SIZE);
      front := (front + 1) % MAX_QUEUE_SIZE;
      size := size - 1;
      Contents := Contents[1..];
      ok := true;
    }
  }
}
