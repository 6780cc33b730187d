/** Queues in the order in which their members last had a turn. */
module TurnOrder {
  /** The last of the first t turns that was p's; before they have had any, p of n stand by number. */
  function LastTurn(turns: seq<nat>, t: nat, p: nat, n: nat): int
    requires t <= |turns|
  {
    if t == 0 then p - n else if turns[t - 1] == p then t - 1 else LastTurn(turns, t - 1, p, n)
  }

  lemma {:induction false} TurnBefore(turns: seq<nat>, t: nat, p: nat, n: nat)
    requires t <= |turns| && p < n
    ensures LastTurn(turns, t, p, n) < t
  {
    if t > 0 {
      TurnBefore(turns, t - 1, p, n);
    }
  }

  /** Turns to come do not change the past ones. */
  lemma {:induction false} SameLastTurn(turns: seq<nat>, more: seq<nat>, t: nat, p: nat, n: nat)
    requires t <= |turns| && t <= |more| && turns[..t] == more[..t]
    ensures LastTurn(turns, t, p, n) == LastTurn(more, t, p, n)
  {
    if t > 0 {
      assert turns[t - 1] == turns[..t][t - 1] && more[t - 1] == more[..t][t - 1];
      assert turns[..t - 1] == turns[..t][..t - 1] && more[..t - 1] == more[..t][..t - 1];
      SameLastTurn(turns, more, t - 1, p, n);
    }
  }

  /** These of n processes stand in the order of their last turns. */
  predicate ByTurn(turns: seq<nat>, t: nat, queue: seq<nat>, n: nat)
    requires t <= |turns|
  {
    && (forall k | 0 <= k < |queue| :: queue[k] < n)
    && forall a, b | 0 <= a < b < |queue| :: LastTurn(turns, t, queue[a], n) < LastTurn(turns, t, queue[b], n)
  }

  /** A queue without the one whose turn it is stays in order. */
  lemma StillByTurn(turns: seq<nat>, t: nat, next: nat, queue: seq<nat>, n: nat)
    requires next == t + 1 <= |turns| && ByTurn(turns, t, queue, n) && turns[t] !in queue
    ensures ByTurn(turns, next, queue, n)
  {
    forall a, b | 0 <= a < b < |queue|
      ensures LastTurn(turns, next, queue[a], n) < LastTurn(turns, next, queue[b], n)
    {
      assert queue[a] in queue && queue[b] in queue;
    }
  }

  /** That one may stand behind it. */
  lemma LastByTurn(turns: seq<nat>, t: nat, next: nat, queue: seq<nat>, n: nat)
    requires next == t + 1 <= |turns| && ByTurn(turns, t, queue, n) && turns[t] !in queue && turns[t] < n
    ensures ByTurn(turns, next, queue + [turns[t]], n)
  {
    StillByTurn(turns, t, next, queue, n);
    var all := queue + [turns[t]];
    forall a, b | 0 <= a < b < |all|
      ensures LastTurn(turns, next, all[a], n) < LastTurn(turns, next, all[b], n)
    {
      assert all[a] in queue;
      TurnBefore(turns, t, all[a], n);
    }
  }

  lemma TailByTurn(turns: seq<nat>, t: nat, queue: seq<nat>, n: nat)
    requires t <= |turns| && queue != [] && ByTurn(turns, t, queue, n)
    ensures ByTurn(turns, t, queue[1..], n)
  {
    forall a, b | 0 <= a < b < |queue[1..]|
      ensures LastTurn(turns, t, queue[1..][a], n) < LastTurn(turns, t, queue[1..][b], n)
    {
      assert queue[1..][a] == queue[a + 1] && queue[1..][b] == queue[b + 1];
    }
  }

  /** The head's last turn lies furthest back. */
  lemma HeadIsOldest(turns: seq<nat>, t: nat, queue: seq<nat>, o: nat, n: nat)
    requires t <= |turns| && ByTurn(turns, t, queue, n) && o in queue && o != queue[0]
    ensures LastTurn(turns, t, queue[0], n) < LastTurn(turns, t, o, n)
  {
    var b :| 0 <= b < |queue| && queue[b] == o;
  }
}
