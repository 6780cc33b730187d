/** The ready queues of the two schedulers: both circular, one with front and rear at -1 when empty and
    no overflow check, the other with one cell always unused and error exits. */
module ReadyQueue {
  import opened Ring

  const MAX_PROCESSES: nat := 1000

  class Queue {
    const data: array<int>
    var front: int
    var rear: int
    var size: nat
    ghost var Contents: seq<nat>

    ghost predicate Valid()
      reads this, data
    {
      && data.Length == MAX_PROCESSES
      && size == |Contents| <= MAX_PROCESSES
      && (if size == 0 then front == rear == -1
          else
            && 0 <= front < MAX_PROCESSES && 0 <= rear < MAX_PROCESSES
            && rear == Wrap(front + (size - 1), MAX_PROCESSES)
            && forall k | 0 <= k < size :: data[Wrap(front + k, MAX_PROCESSES)] == Contents[k])
    }

    constructor ()
      ensures Valid() && fresh(data) && Contents == []
    {
      data := new int[MAX_PROCESSES];
      front, rear := -1, -1;
      size := 0;
      Contents := [];
    }

    method Enqueue(value: nat)
      requires Valid() && |Contents| < MAX_PROCESSES
      modifies this, data
      ensures Valid() && Contents == old(Contents) + [value]
    {
      if size == 0 {
        front, rear := 0, 0;
      } else {
        WrapIsMod(rear + 1, MAX_PROCESSES);
        rear := (rear + 1) % MAX_PROCESSES;
      }
      data[rear] := value;
      size := size + 1;
      Contents := Contents + [value];
    }

    /** The oldest element, or -1. */
    method Dequeue() returns (value: int)
      requires Valid()
      modifies this
      ensures Valid()
      ensures if old(Contents) == [] then value == -1 && Contents == []
              else value >= 0 && old(Contents) == [value as nat] + Contents
    {
      if size == 0 {
        return -1;
      }
      value := data[front];
      assert value == data[Wrap(front + 0, MAX_PROCESSES)] == Contents[0];
      size := size - 1;
      if size == 0 {
        front, rear := -1, -1;
      } else {
        WrapIsMod(front + 1, MAX_PROCESSES);
        front := (front + 1) % MAX_PROCESSES;
      }
      Contents := Contents[1..];
    }
  }

  class ReadyQ {
    const A: array<nat>
    const MAXSIZE: nat
    var F: nat
    var B: nat
    ghost var Contents: seq<nat>

    /** At most MAXSIZE - 1 elements, from F on, the last at B. */
    ghost predicate Valid()
      reads this, A
    {
      && A.Length == MAXSIZE > 0
      && |Contents| < MAXSIZE && F < MAXSIZE && B < MAXSIZE
      && Wrap(F + |Contents|, MAXSIZE) == Wrap(B + 1, MAXSIZE)
      && forall k | 0 <= k < |Contents| :: A[Wrap(F + k, MAXSIZE)] == Contents[k]
    }

    constructor (n: nat)
      ensures Valid() && fresh(A) && MAXSIZE == n + 1 && Contents == []
    {
      A := new nat[n + 1];
      MAXSIZE := n + 1;
      F, B := 0, n;
      Contents := [];
    }

    method IsEmpty() returns (b: bool)
      requires Valid()
      ensures b <==> Contents == []
    {
      WrapIsMod(B + 1, MAXSIZE);
      b := F == (B + 1) % MAXSIZE;
    }

    lemma TwoOn()
      requires Valid()
      ensures (B + 2) % MAXSIZE == Wrap(Wrap(B + 1, MAXSIZE) + 1, MAXSIZE)
    {
      if MAXSIZE > 1 {
        WrapIsMod(B + 2, MAXSIZE);
      }
    }

    method IsFull() returns (b: bool)
      requires Valid()
      ensures b <==> |Contents| == MAXSIZE - 1
    {
      TwoOn();
      b := F == (B + 2) % MAXSIZE;
    }

    /** The head; nothing when the queue is empty, where the program exits. */
    method Front() returns (ok: bool, x: nat)
      requires Valid()
      ensures ok <==> Contents != []
      ensures ok ==> x == Contents[0]
    {
      x := A[F];
      var none := IsEmpty();
      ok := !none;
      assert ok ==> x == A[Wrap(F + 0, MAXSIZE)];
    }

    /** Appends; refused when the queue is full, where the program exits. */
    method Enqueue(srno: nat) returns (ok: bool)
      requires Valid()
      modifies this, A
      ensures Valid()
      ensures ok <==> |old(Contents)| < MAXSIZE - 1
      ensures Contents == if ok then old(Contents) + [srno] else old(Contents)
    {
      var full := IsFull();
      if full {
        return false;
      }
      B := B + 1;
      if B == MAXSIZE {
        B := 0;
      }
      A[B] := srno;
      Contents := Contents + [srno];
      ok := true;
    }

    /** Drops the head; refused when the queue is empty, where the program exits. */
    method Dequeue() returns (ok: bool)
      requires Valid()
      modifies this
      ensures Valid()
      ensures ok <==> old(Contents) != []
      ensures Contents == if ok then old(Contents)[1..] else old(Contents)
    {
      var none := IsEmpty();
      if none {
        return false;
      }
      F := F + 1;
      if F == MAXSIZE {
        F := 0;
      }
      Contents := Contents[1..];
      ok := true;
    }
  }
}
