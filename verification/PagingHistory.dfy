/** Runs of the demand-paging simulation turn by turn: whose turn it is, who comes back when, what each turn
    searches for, and what the reported numbers count. */
module PagingHistory {
  import opened Options
  import opened SearchTrace
  import opened PagingSpec
  import opened PagingRuns
  import opened Pigeonhole
  import opened TurnOrder

  /** The states of a run, before each turn and after the last, and whose the turns are. */
  ghost predicate RunOf(c: Config, run: seq<Sys>, turns: seq<nat>) {
    && ConfigOk(c) && |run| == |turns| + 1 && run[0] == Init(c)
    && forall i: nat | i < |turns| :: TurnAt(c, run, turns, i)
  }

  ghost predicate TurnAt(c: Config, run: seq<Sys>, turns: seq<nat>, i: nat)
    requires i < |turns| && |run| == |turns| + 1
  {
    Turn(c, run[i], turns[i], run[i + 1])
  }

  ghost predicate Turn(c: Config, s: Sys, p: nat, t: Sys) {
    Shape(c, s) && s.ready != [] && s.ready[0] == p && Step(c, s) == Some(t)
  }

  /** A turn of p between two states of which the invariant holds. */
  ghost predicate Sound(c: Config, s: Sys, p: nat, t: Sys) {
    Inv(c, s) && Inv(c, t) && Turn(c, s, p, t)
  }

  lemma {:induction false} RunInv(c: Config, run: seq<Sys>, turns: seq<nat>, i: nat)
    requires RunOf(c, run, turns) && i < |run|
    ensures Inv(c, run[i])
  {
    if i == 0 {
      InitInv(c);
    } else {
      RunInv(c, run, turns, i - 1);
      assert TurnAt(c, run, turns, i - 1);
      StepInv(c, run[i - 1]);
    }
  }

  lemma RunTurn(c: Config, run: seq<Sys>, turns: seq<nat>, i: nat, next: nat)
    requires RunOf(c, run, turns) && next == i + 1 < |run|
    ensures Sound(c, run[i], turns[i], run[next])
  {
    RunInv(c, run, turns, i);
    RunInv(c, run, turns, next);
    assert TurnAt(c, run, turns, i);
  }

  lemma OneMoreTurn(c: Config, run: seq<Sys>, turns: seq<nat>, p: nat, t: Sys)
    requires RunOf(c, run, turns) && Turn(c, run[|turns|], p, t)
    ensures RunOf(c, run + [t], turns + [p])
  {
    var more, taken := run + [t], turns + [p];
    forall i: nat | i < |taken|
      ensures TurnAt(c, more, taken, i)
    {
      assert i < |turns| ==> TurnAt(c, run, turns, i);
    }
  }

  lemma {:induction false} RunToTheEnd(c: Config, run: seq<Sys>, turns: seq<nat>, s: Sys) returns (all: seq<Sys>, taken: seq<nat>)
    requires RunOf(c, run, turns) && s == run[|turns|] && Inv(c, s)
    ensures RunOf(c, all, taken) && all[|taken|] == Final(c, s)
    decreases (CursBounded(c, s); ToDo(c, s)), |s.ready|
  {
    all, taken := run, turns;
    if s.ready != [] {
      StepProgress(c, s);
      var t := Step(c, s).value;
      OneMoreTurn(c, run, turns, s.ready[0], t);
      all, taken := RunToTheEnd(c, run + [t], turns + [s.ready[0]], t);
    }
  }

  /** What the simulation ends in is the last state of a run from its start. */
  lemma FinalIsRun(c: Config) returns (run: seq<Sys>, turns: seq<nat>)
    requires ConfigOk(c)
    ensures Inv(c, Init(c)) && RunOf(c, run, turns) && run[|turns|] == Final(c, Init(c))
  {
    InitInv(c);
    run, turns := RunToTheEnd(c, [Init(c)], [], Init(c));
  }

  // ----- a turn

  /** p takes the turn and is swapped out. */
  predicate Out(s: Sys, p: nat, t: Sys) {
    s.ready != [] && t.swapped == s.swapped + [p] && t.ready == s.ready[1..] && t.cur == s.cur
  }

  /** p has got through its search and will make another. */
  predicate Again(c: Config, s: Sys, p: nat, t: Sys) {
    && s.ready != [] && p < |s.cur| && t.cur == s.cur[p := s.cur[p] + 1] && s.cur[p] + 1 < c.searches
    && t.swapped == s.swapped && t.ready == s.ready[1..] + [p]
  }

  /** p has done its last search; if anybody is swapped out, the first of them is let in. */
  predicate Leaves(c: Config, s: Sys, p: nat, t: Sys) {
    && s.ready != [] && p < |s.cur| && t.cur == s.cur[p := s.cur[p] + 1] && s.cur[p] + 1 == c.searches
    && (if s.swapped == [] then t.swapped == [] && t.ready == s.ready[1..]
        else t.swapped == s.swapped[1..] && t.ready == [s.swapped[0]] + s.ready[1..])
  }

  predicate Moves(c: Config, s: Sys, p: nat, t: Sys) {
    Out(s, p, t) || Again(c, s, p, t) || Leaves(c, s, p, t)
  }

  lemma TurnMoves(c: Config, s: Sys, p: nat, t: Sys)
    requires Sound(c, s, p, t)
    ensures Moves(c, s, p, t) && p < |c.sizes| && p !in s.swapped && p !in s.ready[1..]
    ensures p in t.swapped <==> Out(s, p, t)
    ensures p in t.swapped <==> !Touch(s.mem, p, Trace(c, p, s.cur[p])).ok
  {
    StepBySearch(c, s);
    StepCounts(c, s);
    assert forall i | 0 <= i < |s.ready[1..]| :: s.ready[1..][i] == s.ready[i + 1];
    assert forall k | 0 <= k < |s.swapped| :: s.swapped[k] !in s.ready;
  }

  // ----- whose turn it is

  /** The turn from s to t has let w in again. */
  predicate LetIn(s: Sys, t: Sys, w: nat) {
    w in s.swapped && w !in t.swapped
  }

  /** The queues by the history of the run: those swapped out in the order of their last turns; the ready
      ones too, behind one that has just been let in. */
  predicate Queues(run: seq<Sys>, turns: seq<nat>, t: nat, n: nat)
    requires t < |run| == |turns| + 1
  {
    var s := run[t];
    && ByTurn(turns, t, s.swapped, n)
    && (s.ready != [] && t > 0 && LetIn(run[t - 1], s, s.ready[0]) ==> s.ready[0] < n && ByTurn(turns, t, s.ready[1..], n))
    && (s.ready != [] && t > 0 && !LetIn(run[t - 1], s, s.ready[0]) ==> ByTurn(turns, t, s.ready, n))
    && (t == 0 ==> ByTurn(turns, t, s.ready, n))
  }

  lemma RestByTurn(run: seq<Sys>, turns: seq<nat>, t: nat, n: nat)
    requires t < |run| == |turns| + 1 && Queues(run, turns, t, n) && run[t].ready != []
    ensures ByTurn(turns, t, run[t].ready[1..], n)
  {
    if ByTurn(turns, t, run[t].ready, n) {
      TailByTurn(turns, t, run[t].ready, n);
    }
  }

  lemma MovedQueues(c: Config, s: Sys, turns: seq<nat>, t: nat, next: nat, u: Sys, n: nat)
    requires next == t + 1 <= |turns| && s.ready != [] && turns[t] < n && Moves(c, s, turns[t], u)
    requires ByTurn(turns, t, s.swapped, n) && ByTurn(turns, t, s.ready[1..], n)
    requires turns[t] !in s.swapped && turns[t] !in s.ready[1..]
    ensures ByTurn(turns, next, u.swapped, n)
    ensures Leaves(c, s, turns[t], u) && s.swapped != [] ==> s.swapped[0] < n && ByTurn(turns, next, s.ready[1..], n)
    ensures (Leaves(c, s, turns[t], u) && s.swapped != []) || ByTurn(turns, next, u.ready, n)
  {
    StillByTurn(turns, t, next, s.swapped, n);
    StillByTurn(turns, t, next, s.ready[1..], n);
    LastByTurn(turns, t, next, s.swapped, n);
    LastByTurn(turns, t, next, s.ready[1..], n);
    if s.swapped != [] {
      TailByTurn(turns, next, s.swapped, n);
    }
  }

  lemma FirstIsLetIn(c: Config, s: Sys, p: nat, t: Sys)
    requires Sound(c, s, p, t) && s.swapped != [] && Leaves(c, s, p, t)
    ensures LetIn(s, t, s.swapped[0]) && t.ready[0] == s.swapped[0] && t.ready[1..] == s.ready[1..]
  {
    assert forall k | 0 <= k < |t.swapped| :: t.swapped[k] == s.swapped[k + 1];
  }

  lemma QueuesGoOn(c: Config, run: seq<Sys>, turns: seq<nat>, t: nat, next: nat)
    requires RunOf(c, run, turns) && next == t + 1 < |run| && Queues(run, turns, t, |c.sizes|)
    ensures Queues(run, turns, next, |c.sizes|)
  {
    RunTurn(c, run, turns, t, next);
    TurnMoves(c, run[t], turns[t], run[next]);
    RestByTurn(run, turns, t, |c.sizes|);
    MovedQueues(c, run[t], turns, t, next, run[next], |c.sizes|);
    if Leaves(c, run[t], turns[t], run[next]) && run[t].swapped != [] {
      FirstIsLetIn(c, run[t], turns[t], run[next]);
    }
  }

  lemma {:induction false} QueuesByHistory(c: Config, run: seq<Sys>, turns: seq<nat>, t: nat)
    requires RunOf(c, run, turns) && t < |run|
    ensures Queues(run, turns, t, |c.sizes|)
  {
    if t > 0 {
      QueuesByHistory(c, run, turns, t - 1);
      QueuesGoOn(c, run, turns, t - 1, t);
    }
  }

  /** When nobody has just been let in, the next turn is that of the process in memory whose last turn lies
      furthest back; before their first, of the lowest number. */
  lemma LongestIdleNext(c: Config, run: seq<Sys>, turns: seq<nat>, t: nat, o: nat)
    requires RunOf(c, run, turns) && t < |turns| && o in run[t].ready && o != turns[t]
    requires t == 0 || !LetIn(run[t - 1], run[t], turns[t])
    ensures LastTurn(turns, t, turns[t], |c.sizes|) < LastTurn(turns, t, o, |c.sizes|)
  {
    QueuesByHistory(c, run, turns, t);
    assert TurnAt(c, run, turns, t);
    HeadIsOldest(turns, t, run[t].ready, o, |c.sizes|);
  }

  // ----- who comes back

  /** Process p was swapped out in turn i and is out of memory still at turn t. */
  predicate OutSince(run: seq<Sys>, turns: seq<nat>, p: nat, i: nat, t: nat) {
    i < t < |run| == |turns| + 1 && turns[i] == p && forall k | i < k <= t :: p in run[k].swapped
  }

  /** Whoever is swapped out went in its last turn, and has been out since. */
  lemma {:induction false} OutSinceLastTurn(c: Config, run: seq<Sys>, turns: seq<nat>, t: nat, p: nat)
    requires RunOf(c, run, turns) && t < |run| && p in run[t].swapped
    ensures LastTurn(turns, t, p, |c.sizes|) >= 0 && OutSince(run, turns, p, LastTurn(turns, t, p, |c.sizes|), t)
  {
    assert t > 0;
    if turns[t - 1] != p {
      WasOut(c, run, turns, t - 1, t, p);
      OutSinceLastTurn(c, run, turns, t - 1, p);
    }
  }

  lemma WasOut(c: Config, run: seq<Sys>, turns: seq<nat>, t: nat, next: nat, p: nat)
    requires RunOf(c, run, turns) && next == t + 1 < |run| && p in run[next].swapped && turns[t] != p
    ensures p in run[t].swapped
  {
    RunTurn(c, run, turns, t, next);
    TurnMoves(c, run[t], turns[t], run[next]);
  }

  /** Nobody has a turn while it is swapped out. */
  lemma OutHasNoTurn(c: Config, run: seq<Sys>, turns: seq<nat>, p: nat, k: nat)
    requires RunOf(c, run, turns) && k < |turns| && p in run[k].swapped
    ensures turns[k] != p
  {
    RunTurn(c, run, turns, k, k + 1);
    TurnMoves(c, run[k], turns[k], run[k + 1]);
  }

  lemma {:induction false} LastIsOut(turns: seq<nat>, p: nat, i: nat, t: nat, n: nat)
    requires i < t <= |turns| && turns[i] == p && forall k | i < k < t :: turns[k] != p
    ensures LastTurn(turns, t, p, n) == i
    decreases t
  {
    if i + 1 < t {
      LastIsOut(turns, p, i, t - 1, n);
    }
  }

  lemma SwapTurn(c: Config, run: seq<Sys>, turns: seq<nat>, p: nat, i: nat, t: nat)
    requires RunOf(c, run, turns) && OutSince(run, turns, p, i, t)
    ensures LastTurn(turns, t, p, |c.sizes|) == i
  {
    forall k | i < k < t
      ensures turns[k] != p
    {
      OutHasNoTurn(c, run, turns, p, k);
    }
    LastIsOut(turns, p, i, t, |c.sizes|);
  }

  /** Processes come back in the order in which they were swapped out: when one is let in again, everybody
      who stays out was swapped out later; and it is the next to have a turn. */
  lemma ReadmittedInOrder(c: Config, run: seq<Sys>, turns: seq<nat>, t: nat, next: nat, w: nat, i: nat, o: nat, j: nat)
    requires RunOf(c, run, turns) && next == t + 1 < |run| && OutSince(run, turns, w, i, t) && LetIn(run[t], run[next], w)
    requires OutSince(run, turns, o, j, t) && o in run[next].swapped
    ensures i < j && run[next].ready != [] && run[next].ready[0] == w
  {
    SwapTurn(c, run, turns, w, i, t);
    SwapTurn(c, run, turns, o, j, t);
    FirstGoes(c, run, turns, t, next, w);
    QueuesByHistory(c, run, turns, t);
    HeadIsOldest(turns, t, run[t].swapped, o, |c.sizes|);
  }

  lemma FirstGoes(c: Config, run: seq<Sys>, turns: seq<nat>, t: nat, next: nat, w: nat)
    requires RunOf(c, run, turns) && next == t + 1 < |run| && LetIn(run[t], run[next], w)
    ensures run[t].swapped[0] == w && run[next].ready != [] && run[next].ready[0] == w
  {
    RunTurn(c, run, turns, t, next);
    TurnMoves(c, run[t], turns[t], run[next]);
    OnlyFirstGoes(c, run[t], turns[t], run[next], w);
  }

  lemma OnlyFirstGoes(c: Config, s: Sys, p: nat, t: Sys, w: nat)
    requires Moves(c, s, p, t) && LetIn(s, t, w)
    ensures s.swapped[0] == w && t.ready != [] && t.ready[0] == w
  {
    assert s.swapped == [s.swapped[0]] + s.swapped[1..];
  }

  /** Somebody is let in just when a process has done its last search, as long as anybody is out. */
  lemma LetInWhenDone(c: Config, run: seq<Sys>, turns: seq<nat>, t: nat, next: nat)
    requires RunOf(c, run, turns) && next == t + 1 < |run|
    ensures turns[t] < |run[next].cur| == |c.sizes|
    ensures (exists w :: LetIn(run[t], run[next], w)) <==> run[t].swapped != [] && run[next].cur[turns[t]] == c.searches
  {
    RunTurn(c, run, turns, t, next);
    TurnMoves(c, run[t], turns[t], run[next]);
    if run[t].swapped != [] && Leaves(c, run[t], turns[t], run[next]) {
      FirstIsLetIn(c, run[t], turns[t], run[next]);
    }
    assert Shape(c, run[t]);
  }

  // ----- what a turn searches for

  /** Searches that p has done in the first t turns: those of its turns after which it was not swapped out. */
  function Throughs(run: seq<Sys>, turns: seq<nat>, t: nat, p: nat): nat
    requires t < |run| == |turns| + 1
  {
    if t == 0 then 0 else Throughs(run, turns, t - 1, p) + if turns[t - 1] == p && p !in run[t].swapped then 1 else 0
  }

  lemma {:induction false} SearchNumber(c: Config, run: seq<Sys>, turns: seq<nat>, t: nat, p: nat)
    requires RunOf(c, run, turns) && t < |run| && p < |c.sizes|
    ensures |run[t].cur| == |c.sizes| && run[t].cur[p] == Throughs(run, turns, t, p)
  {
    if t > 0 {
      SearchNumber(c, run, turns, t - 1, p);
      SearchGoesOn(c, run, turns, t - 1, t, p);
    }
  }

  lemma SearchGoesOn(c: Config, run: seq<Sys>, turns: seq<nat>, t: nat, next: nat, p: nat)
    requires RunOf(c, run, turns) && next == t + 1 < |run| && p < |c.sizes| == |run[t].cur| && run[t].cur[p] == Throughs(run, turns, t, p)
    ensures |run[next].cur| == |c.sizes| && run[next].cur[p] == Throughs(run, turns, next, p)
  {
    RunTurn(c, run, turns, t, next);
    TurnMoves(c, run[t], turns[t], run[next]);
  }

  /** In this turn p touched these pages in order: all of them if there was a frame for each that it missed,
      or else up to the first for which there was none. */
  ghost predicate Touches(s: Sys, p: nat, t: Sys, pages: seq<nat>) {
    && p < |s.mem.tables| == |t.mem.tables|
    && (var missing := Missing(s.mem, p, pages);
        if p !in t.swapped then
          && |missing| <= |s.mem.free|
          && t.accesses == s.accesses + |pages| && t.faults == s.faults + |missing|
          && (p in t.ready ==> t.mem.tables[p].Keys == s.mem.tables[p].Keys + missing)
        else
          && |missing| > |s.mem.free|
          && t.faults == s.faults + |s.mem.free| + 1
          && exists k: nat :: StopsAt(s.mem, p, pages, k) && t.accesses == s.accesses + k + 1)
  }

  /** The numbers that a turn adds to. */
  lemma TurnNumbers(c: Config, s: Sys, p: nat, t: Sys)
    requires Sound(c, s, p, t)
    ensures |t.mem.tables| == |s.mem.tables| && p < |s.mem.tables|
    ensures var r := Touch(s.mem, p, Trace(c, p, s.cur[p]));
      && t.accesses == s.accesses + r.accesses && t.faults == s.faults + r.faults
      && (p in t.ready ==> t.mem.tables[p] == r.mem.tables[p])
    ensures if p in t.swapped then t.swaps == s.swaps + 1 && t.least == Min(|t.ready|, s.least)
            else t.swaps == s.swaps && t.least == s.least
  {
    StepBySearch(c, s);
    TurnMoves(c, s, p, t);
    BackIsOther(c, s, p, t);
  }

  lemma BackIsOther(c: Config, s: Sys, p: nat, t: Sys)
    requires p !in s.swapped && Moves(c, s, p, t) && p !in s.ready[1..]
    ensures p in t.ready <==> Again(c, s, p, t)
  {
  }

  lemma TurnTouches(c: Config, s: Sys, p: nat, t: Sys)
    requires Sound(c, s, p, t)
    ensures Touches(s, p, t, Trace(c, p, s.cur[p]))
  {
    TurnMoves(c, s, p, t);
    TurnNumbers(c, s, p, t);
    TouchNeedsMissing(s.mem, p, Trace(c, p, s.cur[p]));
    var k := TouchStops(s.mem, p, Trace(c, p, s.cur[p]));
  }

  /** A process searches for its keys in order, and for the same one again after it was swapped out. */
  lemma KeysInOrder(c: Config, run: seq<Sys>, turns: seq<nat>, t: nat, next: nat)
    requires RunOf(c, run, turns) && next == t + 1 < |run|
    ensures var p, k := turns[t], Throughs(run, turns, t, turns[t]);
      p < |c.sizes| && k < |c.keys[p]| && Touches(run[t], p, run[next], PagesFor(c.sizes[p], c.keys[p][k]))
  {
    RunTurn(c, run, turns, t, next);
    SearchNumber(c, run, turns, t, turns[t]);
    TurnTouches(c, run[t], turns[t], run[next]);
  }

  // ----- what the reported numbers count

  /** The i-th turn ends with a swap. */
  predicate Swap(run: seq<Sys>, turns: seq<nat>, i: nat)
    requires i < |turns| && |run| == |turns| + 1
  {
    turns[i] in run[i + 1].swapped
  }

  function Swaps(run: seq<Sys>, turns: seq<nat>, t: nat): nat
    requires t < |run| == |turns| + 1
  {
    if t == 0 then 0 else Swaps(run, turns, t - 1) + if Swap(run, turns, t - 1) then 1 else 0
  }

  /** The number of swaps is that of the turns that end in one, and the degree reported is the least number
      of processes that any of these left in memory, or all if there was none. */
  ghost predicate Reports(run: seq<Sys>, turns: seq<nat>, t: nat, n: nat)
    requires t < |run| == |turns| + 1
  {
    && run[t].swaps == Swaps(run, turns, t)
    && (forall i: nat | i < t && Swap(run, turns, i) :: run[t].least <= |run[i + 1].ready|)
    && (if Swaps(run, turns, t) == 0 then run[t].least == n
        else exists i: nat :: i < t && Swap(run, turns, i) && run[t].least == |run[i + 1].ready|)
  }

  lemma StillReports(run: seq<Sys>, turns: seq<nat>, t: nat, next: nat, n: nat)
    requires next == t + 1 < |run| == |turns| + 1 && Reports(run, turns, t, n) && |run[next].ready| <= n
    requires if Swap(run, turns, t) then run[next].swaps == run[t].swaps + 1 && run[next].least == Min(|run[next].ready|, run[t].least)
             else run[next].swaps == run[t].swaps && run[next].least == run[t].least
    ensures Reports(run, turns, next, n)
  {
    if Swaps(run, turns, t) > 0 {
      var i: nat :| i < t && Swap(run, turns, i) && run[t].least == |run[i + 1].ready|;
      assert i < next && Swap(run, turns, i);
    }
    if Swap(run, turns, t) {
      assert t < next;
    }
  }

  lemma TurnReports(c: Config, run: seq<Sys>, turns: seq<nat>, t: nat, next: nat)
    requires RunOf(c, run, turns) && next == t + 1 < |run|
    ensures |run[next].ready| <= |c.sizes|
    ensures if Swap(run, turns, t) then run[next].swaps == run[t].swaps + 1 && run[next].least == Min(|run[next].ready|, run[t].least)
            else run[next].swaps == run[t].swaps && run[next].least == run[t].least
  {
    RunTurn(c, run, turns, t, next);
    TurnNumbers(c, run[t], turns[t], run[next]);
    FewReady(c, run[next]);
  }

  lemma FewReady(c: Config, s: Sys)
    requires Inv(c, s)
    ensures |s.ready| <= |c.sizes|
  {
    Crowd(s.ready, |c.sizes|);
  }

  lemma {:induction false} NumbersCount(c: Config, run: seq<Sys>, turns: seq<nat>, t: nat)
    requires RunOf(c, run, turns) && t < |run|
    ensures Reports(run, turns, t, |c.sizes|)
  {
    if t > 0 {
      NumbersCount(c, run, turns, t - 1);
      TurnReports(c, run, turns, t - 1, t);
      StillReports(run, turns, t - 1, t, |c.sizes|);
    }
  }
}
